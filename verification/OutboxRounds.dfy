/** What one round of publish_once does to every row of its batch, and the round as a run of the
    interleaved protocol (backend/app/activity_contract.py:156-193). */
module OutboxRounds {
  import opened ActivityContract
  import opened ActivityCollector
  import opened JsonText
  import opened Options
  import opened OutboxProtocol
  import opened OutboxDrain

  // Each row of the batch, by column: delivered now, or due again after twice, four times, up to 256
  // times a second, with one more attempt and the failure noted.
  lemma RoundSettlesEachRow(service: string, x: Ends, batch: seq<Claim>, enc: Encoder, now: Instant, i: int)
    requires SoundEnds(service, x, now) && service != RESERVED_SLUG
    requires DueBatch(x.box, now, batch) && 0 <= i < |batch|
    ensures var (id, box) := (batch[i].eventId, Round(service, x, batch, enc, now).box);
            && id in x.box.delivery && id in box.delivery
            && var tried := x.box.delivery[id].attempts + 1;
               box.delivery[id]
               == if Fits(batch, enc) then Delivery(tried, Some(now), None, None)
                  else Delivery(tried, None, Some(now + Pow2(if tried < 8 then tried else 8) * SECOND),
                                Some("HTTPStatusError"))
  {
    hide ValidEvent, Collect, Pow2, BodyBytes, SoundEnds, MarkAll, RetryDelay, Fits;
    var id := batch[i].eventId;
    var answer := OutboxDrain.Answered(service, x, batch, enc, now);
    AnswerOfRound(service, x, batch, enc, now);
    BatchOutcome(service, x, batch, enc, now);
    assert id in Ids(batch);
    hide DueBatch;
    assert Due(x.box, id, now) && batch[i].attempts == x.box.delivery[id].attempts;
    RoundAnswer(service, x, batch, enc, now);
    MarkAllAt(x.box.delivery, batch, answer, now, id);
    RetryDelayIsPowerOfTwo(batch[i].attempts + 1);
  }

  lemma RoundAnswer(service: string, x: Ends, batch: seq<Claim>, enc: Encoder, now: Instant)
    requires SoundEnds(service, x, now) && service != RESERVED_SLUG
    requires DueBatch(x.box, now, batch) && batch != []
    ensures !Fits(batch, enc) ==>
              OutboxDrain.Answered(service, x, batch, enc, now) == Answer({}, Some("HTTPStatusError"))
  {
    hide ValidEvent, Collect, BodyBytes, SoundEnds, DueBatch;
    BatchOutcome(service, x, batch, enc, now);
  }

  // ---------------------------------------------------------------- the round among other steps

  // publish_once in the protocol's own steps, against a collector that answers.
  ghost function RoundSteps(w: World, pid: PublisherId, batch: seq<Claim>, enc: Encoder): seq<Step>
    requires pid in w.publishers
  {
    var request := Request(w.publishers[pid].service, Payloads(batch), BodyBytes(Payloads(batch), enc));
    var outcome := Collect(w.rows, request.service, request.events, request.length, w.clock).outcome;
    [Read(pid, batch), Post(pid, request.length), Handle(request),
     if outcome.Acknowledged? then Hear(pid, Reply(request, outcome.ids)) else GiveUp(pid, "HTTPStatusError"),
     Settle(pid)]
  }

  lemma FiveSteps(w: World, s: seq<Step>)
    requires |s| == 5
    ensures Run(w, s) == Next(Next(Next(Next(Next(w, s[0]), s[1]), s[2]), s[3]), s[4])
  {
    hide Next;
    var a := Next(w, s[0]);
    var b := Next(a, s[1]);
    var c := Next(b, s[2]);
    var d := Next(c, s[3]);
    assert Run(w, s) == Run(a, s[1..]);
    assert Run(a, s[1..]) == Run(b, s[2..]) by { assert s[1..][1..] == s[2..]; }
    assert Run(b, s[2..]) == Run(c, s[3..]) by { assert s[2..][1..] == s[3..]; }
    assert Run(c, s[3..]) == Run(d, s[4..]) by { assert s[3..][1..] == s[4..]; }
    assert Run(d, s[4..]) == Next(d, s[4]) by { assert s[4..][1..] == []; }
  }

  // Read, posted and handled: the publisher waits and the collector has answered.
  lemma HandledSoFar(w: World, pid: PublisherId, batch: seq<Claim>, enc: Encoder)
    requires pid in w.publishers && w.publishers[pid].phase.Idle? && w.publishers[pid].service in w.boxes
    requires batch != [] && DueBatch(w.boxes[w.publishers[pid].service], w.clock, batch)
    ensures var s := RoundSteps(w, pid, batch, enc);
            var handled := Next(Next(Next(w, s[0]), s[1]), s[2]);
            var done := Collect(w.rows, s[2].request.service, s[2].request.events, s[2].request.length, w.clock);
            && handled.publishers == w.publishers[pid := Publisher(w.publishers[pid].service, Sent(w.clock, batch))]
            && handled.boxes == w.boxes && handled.rows == done.rows && handled.clock == w.clock
            && (done.outcome.Acknowledged? ==> Reply(s[2].request, done.outcome.ids) in handled.replies)
  {
    hide DueBatch, Collect, BodyBytes, Payloads;
  }

  // The answer, or its absence, and the settling of the batch.
  lemma SettledThen(h: World, pid: PublisherId, reply: Option<Reply>)
    requires pid in h.publishers && h.publishers[pid].phase.Sent? && h.publishers[pid].service in h.boxes
    requires reply.Some? ==> reply.value in h.replies && reply.value.request == Request(h.publishers[pid].service,
        Payloads(h.publishers[pid].phase.rows), reply.value.request.length)
    ensures var Publisher(service, phase) := h.publishers[pid];
            var step := if reply.Some? then Hear(pid, reply.value) else GiveUp(pid, "HTTPStatusError");
            var answer := ReadResponse(Ids(phase.rows),
                                       if reply.Some? then Body(reply.value.ids) else Failed("HTTPStatusError"));
            var box := h.boxes[service];
            Next(Next(h, step), Settle(pid))
            == h.(publishers := h.publishers[pid := Publisher(service, Idle)],
                  boxes := h.boxes[service := box.(delivery := MarkAll(box.delivery, phase.rows, answer, phase.at))])
  {
    hide MarkAll, ReadResponse, Payloads, Ids;
  }

  // In the protocol an idle publisher whose five steps nothing interrupts runs exactly one round.
  lemma RoundIsARun(w: World, pid: PublisherId, batch: seq<Claim>, enc: Encoder)
    requires pid in w.publishers && w.publishers[pid].phase.Idle? && w.publishers[pid].service in w.boxes
    requires batch != [] && DueBatch(w.boxes[w.publishers[pid].service], w.clock, batch)
    ensures var service := w.publishers[pid].service;
            var (r, end) := (Round(service, Ends(w.boxes[service], w.rows), batch, enc, w.clock),
                             Run(w, RoundSteps(w, pid, batch, enc)));
            && end.boxes == w.boxes[service := r.box] && end.rows == r.rows
            && end.publishers == w.publishers && end.clock == w.clock
  {
    hide DueBatch, MarkAll, ReadResponse, Collect, BodyBytes, Payloads, Run, Next, Ids;
    var s := RoundSteps(w, pid, batch, enc);
    FiveSteps(w, s);
    HandledSoFar(w, pid, batch, enc);
    SettledThen(Next(Next(Next(w, s[0]), s[1]), s[2]), pid, if s[3].Hear? then Some(s[3].reply) else None);
    assert w.publishers[pid := Publisher(w.publishers[pid].service, Idle)] == w.publishers;
  }

  // ---------------------------------------------------------------- recording, and the order of reading

  // An event is recorded exactly when it meets the contract and its id is new: one row of evidence under
  // its own digest, one row to deliver, not tried and due at once, and nothing else.
  lemma RecordedIff(b: Box, e: Event, now: Instant)
    requires Wired(b)
    ensures var r := Enqueued(b, e, now);
            && (r.Ok? <==> ValidEvent(e, now) && e.eventId !in b.events)
            && (r == Err(InvalidEvent) <==> !ValidEvent(e, now))
            && (r == Err(DuplicateId) <==> ValidEvent(e, now) && e.eventId in b.events)
            && (r.Ok? ==> && r.value.events == b.events[e.eventId := Evidence(e, Sha256(e), now)]
                          && r.value.delivery == b.delivery[e.eventId := Delivery(0, None, None, None)]
                          && Due(r.value, e.eventId, now))
  {
    hide ValidEvent;
  }

  // In the protocol a service records its own events, at the clock of the world.
  lemma ServiceRecords(w: World, service: string, e: Event)
    requires service in w.boxes && Wired(w.boxes[service])
    ensures var after := Next(w, Enqueue(service, e));
            if e.service == service && ValidEvent(e, w.clock) && e.eventId !in w.boxes[service].events
            then after == w.(boxes := w.boxes[service := Enqueued(w.boxes[service], e, w.clock).value])
            else after == w
  {
    hide ValidEvent;
  }

  // `a` and `b` agree up to `k`, where `a` ends or has the smaller character.
  predicate Decides(a: string, b: string, k: int) {
    0 <= k <= |a| && k < |b| && a[..k] == b[..k] && (k == |a| || a[k] < b[k])
  }

  lemma DecidesLater(a: string, b: string, k: int)
    requires a != "" && b != "" && a[0] == b[0] && k >= 1
    ensures Decides(a, b, k) <==> Decides(a[1..], b[1..], k - 1)
  {
    if k <= |a| && k <= |b| {
      assert a[..k] == [a[0]] + a[1..][..k - 1] && b[..k] == [b[0]] + b[1..][..k - 1];
    }
  }

  lemma DecidesFirst(a: string, b: string)
    requires a != "" && b != ""
    ensures Decides(a, b, 0) <==> a[0] < b[0]
    ensures a[0] != b[0] ==> forall k | Decides(a, b, k) :: k == 0
  {
    assert a[..0] == b[..0];
    forall k | 1 <= k <= |a| && k <= |b| ensures a[..k][0] == a[0] && b[..k][0] == b[0] {
    }
  }

  // Text order: at the first difference the smaller character comes first, and a text before its
  // continuations.
  lemma {:induction false} TextBeforeMeans(a: string, b: string)
    ensures TextBefore(a, b) <==> exists k :: Decides(a, b, k)
    decreases |a|
  {
    if a == "" {
      assert b != "" ==> Decides(a, b, 0);
    } else if b != "" {
      DecidesFirst(a, b);
      if a[0] == b[0] {
        hide Decides;
        TextBeforeMeans(a[1..], b[1..]);
        if k :| Decides(a[1..], b[1..], k) {
          assert k >= 0 by { AtLeastNought(a[1..], b[1..], k); }
          DecidesLater(a, b, k + 1);
        }
        if k :| Decides(a, b, k) {
          assert k >= 0 by { AtLeastNought(a, b, k); }
          DecidesLater(a, b, k);
        }
      }
    }
  }

  lemma AtLeastNought(a: string, b: string, k: int)
    requires Decides(a, b, k)
    ensures k >= 0
  {}

  // A batch is in order of recording and takes the oldest: whatever due row it leaves is no older than
  // any it has, and it leaves one only when it is full.
  lemma OldestFirst(b: Box, now: Instant, batch: seq<Claim>)
    requires DueBatch(b, now, batch)
    ensures forall i, j | 0 <= i < j < |batch| ::
              b.events[batch[i].eventId].createdAt <= b.events[batch[j].eventId].createdAt
    ensures forall id, i | id in b.events && Due(b, id, now) && id !in Ids(batch) && 0 <= i < |batch| ::
              b.events[batch[i].eventId].createdAt <= b.events[id].createdAt
    ensures forall id | id in b.events && Due(b, id, now) && id !in Ids(batch) :: |batch| == 20
  {
    hide TextBefore;
  }

  // A publisher that crashes starts over and nothing else changes: what it has posted stays posted, what
  // it has not settled stays unsettled. One that gives up while waiting settles its batch as failed.
  lemma InterruptionsMean(w: World, pid: PublisherId, error: string)
    requires pid in w.publishers
    ensures var q := Next(w, Crash(pid));
            && q == w.(publishers := q.publishers) && q.publishers.Keys == w.publishers.Keys
            && q.publishers[pid] == Publisher(w.publishers[pid].service, Idle)
            && forall other | other in w.publishers && other != pid :: q.publishers[other] == w.publishers[other]
    ensures w.publishers[pid].phase.Claimed? || w.publishers[pid].phase.Sent? ==>
              var (phase, q) := (w.publishers[pid].phase, Next(w, GiveUp(pid, error)));
              && q == w.(publishers := q.publishers) && q.publishers.Keys == w.publishers.Keys
              && q.publishers[pid] == Publisher(w.publishers[pid].service,
                                                OutboxProtocol.Answered(phase.at, phase.rows, Answer({}, Some(error))))
              && forall other | other in w.publishers && other != pid :: q.publishers[other] == w.publishers[other]
  {}
}
