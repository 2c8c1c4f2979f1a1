/** One publisher and an answering collector: how many rounds of publish_once empty an outbox, and
    exactly when a round delivers its batch (backend/app/activity_contract.py:156-193,
    backend/app/routers/activity.py:24-77). */
module OutboxDrain {
  import opened ActivityContract
  import opened ActivityCollector
  import opened JsonText
  import opened OutboxProtocol

  datatype Ends = Ends(box: Box, rows: seq<Row>)

  // publish_once against a collector that answers: read, post, collect, settle; `enc` writes the body.
  ghost function Answered(service: string, x: Ends, batch: seq<Claim>, enc: Encoder, now: Instant): Answer {
    var done := Collect(x.rows, service, Payloads(batch), BodyBytes(Payloads(batch), enc), now);
    ReadResponse(Ids(batch), if done.outcome.Acknowledged? then Body(done.outcome.ids) else Failed("HTTPStatusError"))
  }

  ghost function Round(service: string, x: Ends, batch: seq<Claim>, enc: Encoder, now: Instant): Ends {
    if batch == [] then x
    else Ends(x.box.(delivery := MarkAll(x.box.delivery, batch, Answered(service, x, batch, enc, now), now)),
              Collect(x.rows, service, Payloads(batch), BodyBytes(Payloads(batch), enc), now).rows)
  }

  ghost predicate SoundEnds(service: string, x: Ends, clock: Instant) {
    && SoundBox(service, x.box, clock)
    && UniqueKeys(x.rows) && FaithfulRows(x.rows)
    && forall i | 0 <= i < |x.rows| && x.rows[i].service == service ::
         x.rows[i].eventId in x.box.events && x.box.events[x.rows[i].eventId].payload == x.rows[i].payload
  }

  ghost function PendingIds(b: Box): set<string> {
    set id | id in b.delivery && Pending(b, id)
  }

  predicate Fits(batch: seq<Claim>, enc: Encoder) {
    BodyBytes(Payloads(batch), enc) <= MAX_BODY_BYTES
  }

  // The collector acknowledges a due batch exactly when its body fits.
  lemma BatchOutcome(service: string, x: Ends, batch: seq<Claim>, enc: Encoder, now: Instant)
    requires SoundEnds(service, x, now) && service != RESERVED_SLUG
    requires DueBatch(x.box, now, batch) && batch != []
    ensures Collect(x.rows, service, Payloads(batch), BodyBytes(Payloads(batch), enc), now).outcome
         == if Fits(batch, enc) then Acknowledged(EventIds(Payloads(batch))) else TooLarge
  {
    hide ValidEvent, BodyBytes;
    var events := Payloads(batch);
    forall k | 0 <= k < |events|
      ensures events[k].eventId == batch[k].eventId && x.box.events[batch[k].eventId].payload == events[k]
    {
    }
    assert AcceptableBatch(service, events, now);
    assert Consistent(x.rows, service, events);
    StoreAllMeaning(x.rows, service, events);
  }

  lemma RoundKeepsSound(service: string, x: Ends, batch: seq<Claim>, enc: Encoder, now: Instant)
    requires SoundEnds(service, x, now) && DueBatch(x.box, now, batch)
    ensures SoundEnds(service, Round(service, x, batch, enc, now), now)
  {
    hide ValidEvent, Collect, BodyBytes, MarkAll, ReadResponse, UniqueKeys, FaithfulRows, Ids;
    if batch != [] {
      var events := Payloads(batch);
      var y := Round(service, x, batch, enc, now);
      CollectEffect(x.rows, Request(service, events, BodyBytes(events, enc)), now);
      forall i | 0 <= i < |y.rows| && y.rows[i].service == service
        ensures y.rows[i].eventId in y.box.events && y.box.events[y.rows[i].eventId].payload == y.rows[i].payload
      {
        if i < |x.rows| {
          assert y.rows[i] == x.rows[i];
        } else {
          var k :| 0 <= k < |events| && events[k] == y.rows[i].payload;
          assert y.rows[i].eventId == batch[k].eventId;
        }
      }
    }
  }

  lemma AnswerOfRound(service: string, x: Ends, batch: seq<Claim>, enc: Encoder, now: Instant)
    requires SoundEnds(service, x, now) && service != RESERVED_SLUG
    requires DueBatch(x.box, now, batch) && batch != []
    ensures Answered(service, x, batch, enc, now).acked == if Fits(batch, enc) then Ids(batch) else {}
  {
    hide ValidEvent, Collect, BodyBytes, EventIds;
    BatchOutcome(service, x, batch, enc, now);
    var ids := EventIds(Payloads(batch));
    forall i | 0 <= i < |batch|
      ensures ids[i] == batch[i].eventId
    {
    }
    assert (set i | 0 <= i < |ids| :: ids[i]) == Ids(batch) by {
      forall id | id in Ids(batch)
        ensures id in set i | 0 <= i < |ids| :: ids[i]
      {
        var i :| 0 <= i < |batch| && batch[i].eventId == id;
        assert ids[i] == id;
      }
    }
  }

  // A round delivers its whole batch when the body fits and not one row of it otherwise; no other
  // row changes either way.
  lemma RoundDelivers(service: string, x: Ends, batch: seq<Claim>, enc: Encoder, now: Instant)
    requires SoundEnds(service, x, now) && service != RESERVED_SLUG
    requires DueBatch(x.box, now, batch) && batch != []
    ensures PendingIds(Round(service, x, batch, enc, now).box)
         == if Fits(batch, enc) then PendingIds(x.box) - Ids(batch) else PendingIds(x.box)
    ensures forall id | id in x.box.delivery && id !in Ids(batch) ::
              Round(service, x, batch, enc, now).box.delivery[id] == x.box.delivery[id]
  {
    hide ValidEvent, Collect;
    var answer := Answered(service, x, batch, enc, now);
    AnswerOfRound(service, x, batch, enc, now);
    var after := Round(service, x, batch, enc, now).box;
    forall id | id in x.box.delivery
      ensures id !in Ids(batch) ==> after.delivery[id] == x.box.delivery[id]
      ensures Pending(after, id) <==> Pending(x.box, id) && !(Fits(batch, enc) && id in Ids(batch))
    {
      MarkAllAt(x.box.delivery, batch, answer, now, id);
      if id in Ids(batch) {
        var i :| 0 <= i < |batch| && batch[i].eventId == id;
      }
    }
  }

  lemma {:induction false} IdsCardinality(batch: seq<Claim>)
    requires DistinctIds(batch)
    ensures |Ids(batch)| == |batch|
  {
    if batch == [] {
      assert Ids(batch) == {};
    } else {
      var last := |batch| - 1;
      IdsCardinality(batch[..last]);
      assert Ids(batch) == Ids(batch[..last]) + {batch[last].eventId} by {
        forall id | id in Ids(batch)
          ensures id in Ids(batch[..last]) + {batch[last].eventId}
        {
          var i :| 0 <= i < |batch| && batch[i].eventId == id;
          if i < last { assert batch[..last][i].eventId == id; }
        }
      }
    }
  }

  // A legal history of rounds: time does not run back and each batch is what the SELECT answers.
  ghost predicate History(service: string, x: Ends, times: seq<Instant>, batches: seq<seq<Claim>>, enc: Encoder)
    decreases |times|
  {
    && |times| == |batches|
    && (times != [] ==>
          && DueBatch(x.box, times[0], batches[0])
          && (|times| > 1 ==> times[0] <= times[1])
          && History(service, Round(service, x, batches[0], enc, times[0]), times[1..], batches[1..], enc))
  }

  ghost function After(service: string, x: Ends, times: seq<Instant>, batches: seq<seq<Claim>>, enc: Encoder): Ends
    requires |times| == |batches|
    decreases |times|
  {
    if times == [] then x
    else After(service, Round(service, x, batches[0], enc, times[0]), times[1..], batches[1..], enc)
  }

  lemma SoundLater(service: string, x: Ends, now: Instant, later: Instant)
    requires SoundEnds(service, x, now) && now <= later
    ensures SoundEnds(service, x, later)
  {
  }

  ghost function DueIds(b: Box, now: Instant): set<string> {
    set id | id in b.delivery && Due(b, id, now)
  }

  lemma {:induction false} CardinalityMono(a: set<string>, b: set<string>)
    requires a <= b
    ensures |a| <= |b|
  {
    assert b == a + (b - a);
  }

  // A batch takes every due row, or twenty of them.
  lemma BatchSize(x: Ends, batch: seq<Claim>, now: Instant)
    requires Wired(x.box) && DueBatch(x.box, now, batch)
    ensures Ids(batch) <= DueIds(x.box, now) <= PendingIds(x.box)
    ensures |Ids(batch)| == Min(BATCH_SIZE, |DueIds(x.box, now)|)
  {
    IdsCardinality(batch);
    if |batch| < BATCH_SIZE {
      assert Ids(batch) == DueIds(x.box, now);
    } else {
      CardinalityMono(Ids(batch), DueIds(x.box, now));
    }
  }

  // One round that fits takes its batch away; what was due and not taken stays due.
  lemma RoundTakes(service: string, x: Ends, batch: seq<Claim>, enc: Encoder, now: Instant, later: Instant)
    requires service != RESERVED_SLUG && SoundEnds(service, x, now) && now <= later
    requires DueBatch(x.box, now, batch) && Fits(batch, enc)
    ensures var y := Round(service, x, batch, enc, now);
            && SoundEnds(service, y, now)
            && |PendingIds(y.box)| == |PendingIds(x.box)| - Min(BATCH_SIZE, |DueIds(x.box, now)|)
            && |DueIds(y.box, later)| >= |DueIds(x.box, now)| - Min(BATCH_SIZE, |DueIds(x.box, now)|)
            && PendingIds(y.box) == PendingIds(x.box) - Ids(batch)
  {
    hide ValidEvent, Collect, MarkAll, Fits;
    var y := Round(service, x, batch, enc, now);
    BatchSize(x, batch, now);
    RoundKeepsSound(service, x, batch, enc, now);
    if batch != [] {
      RoundDelivers(service, x, batch, enc, now);
    } else {
      assert Ids(batch) == {};
    }
    assert PendingIds(y.box) == PendingIds(x.box) - Ids(batch);
    hide DueBatch, SoundEnds;
    forall id | id in DueIds(x.box, now) - Ids(batch) ensures id in DueIds(y.box, later) {
      assert id in PendingIds(y.box) && y.box.delivery[id] == x.box.delivery[id];
    }
    CardinalityMono(DueIds(x.box, now) - Ids(batch), DueIds(y.box, later));
    assert |DueIds(x.box, now) - Ids(batch)| == |DueIds(x.box, now)| - |Ids(batch)|;
    assert |PendingIds(y.box)| == |PendingIds(x.box)| - |Ids(batch)|;
  }

  ghost predicate EveryBodyFits(batches: seq<seq<Claim>>, enc: Encoder) {
    forall i | 0 <= i < |batches| :: Fits(batches[i], enc)
  }

  // n rounds whose bodies fit deliver at least the rows due at the first one, up to twenty a round, and
  // never more than twenty a round; rows still backing off join when their time comes.
  lemma {:induction false} OutboxDrains(service: string, x: Ends, times: seq<Instant>, batches: seq<seq<Claim>>,
      enc: Encoder)
    requires service != RESERVED_SLUG && times != [] && SoundEnds(service, x, times[0])
    requires History(service, x, times, batches, enc) && EveryBodyFits(batches, enc)
    ensures var (before, left) := (|PendingIds(x.box)|, |PendingIds(After(service, x, times, batches, enc).box)|);
            && left <= before - Min(|DueIds(x.box, times[0])|, BATCH_SIZE * |times|)
            && left >= before - BATCH_SIZE * |times|
    decreases |times|
  {
    hide ValidEvent, Collect, DueBatch, MarkAll, Fits, Round, DueIds, PendingIds;
    var batch := batches[0];
    var y := Round(service, x, batch, enc, times[0]);
    if |times| > 1 {
      RoundTakes(service, x, batch, enc, times[0], times[1]);
      SoundLater(service, y, times[0], times[1]);
      assert times[1..][0] == times[1];
      assert forall i | 0 <= i < |batches[1..]| :: batches[1..][i] == batches[i + 1];
      OutboxDrains(service, y, times[1..], batches[1..], enc);
    } else {
      RoundTakes(service, x, batch, enc, times[0], times[0]);
      assert After(service, x, times, batches, enc) == y;
    }
  }

  // When every pending row is due at the first round, n rounds leave exactly the rows beyond the first
  // 20 n; in particular ceil(k / 20) rounds deliver all k.
  lemma DueOutboxDrains(service: string, x: Ends, times: seq<Instant>, batches: seq<seq<Claim>>, enc: Encoder)
    requires service != RESERVED_SLUG && times != [] && SoundEnds(service, x, times[0])
    requires History(service, x, times, batches, enc) && EveryBodyFits(batches, enc)
    requires forall id | id in PendingIds(x.box) :: Due(x.box, id, times[0])
    ensures |PendingIds(After(service, x, times, batches, enc).box)|
         == if |PendingIds(x.box)| <= BATCH_SIZE * |times| then 0 else |PendingIds(x.box)| - BATCH_SIZE * |times|
  {
    assert DueIds(x.box, times[0]) == PendingIds(x.box);
    hide SoundEnds, History, After, EveryBodyFits, DueIds, PendingIds;
    OutboxDrains(service, x, times, batches, enc);
  }

  // ---------------------------------------------------------------- when a body fits

  lemma {:induction false} CompactWire(events: seq<Event>, now: Instant)
    requires forall i | 0 <= i < |events| :: ValidEvent(events[i], now)
    ensures WireBytes(events, Compact) <= MAX_EVENT_BYTES * |events|
    decreases |events|
  {
    hide EventBytes;
    if events != [] {
      assert forall i | 0 <= i < |events[1..]| :: events[1..][i] == events[i + 1];
      CompactWire(events[1..], now);
    }
  }

  // An encoder that writes the canonical text itself can never exceed the collector's limit.
  lemma CompactBatchFits(service: string, x: Ends, batch: seq<Claim>, now: Instant)
    requires SoundEnds(service, x, now) && DueBatch(x.box, now, batch)
    ensures Fits(batch, Compact)
  {
    hide EventBytes, WireBytes;
    CompactWire(Payloads(batch), now);
  }

  lemma {:induction false} CompactHistoryFits(service: string, x: Ends, times: seq<Instant>, batches: seq<seq<Claim>>)
    requires service != RESERVED_SLUG && (times != [] ==> SoundEnds(service, x, times[0]))
    requires History(service, x, times, batches, Compact)
    ensures EveryBodyFits(batches, Compact)
    decreases |times|
  {
    hide ValidEvent, Collect, DueBatch, MarkAll, Fits, Round;
    if times != [] {
      CompactBatchFits(service, x, batches[0], times[0]);
      RoundKeepsSound(service, x, batches[0], Compact, times[0]);
      var y := Round(service, x, batches[0], Compact, times[0]);
      if |times| > 1 {
        SoundLater(service, y, times[0], times[1]);
      }
      CompactHistoryFits(service, y, times[1..], batches[1..]);
      assert forall i | 1 <= i < |batches| :: batches[i] == batches[1..][i - 1];
    }
  }

  // With the compact encoder nothing else is asked: n rounds over k due rows leave exactly the rows
  // beyond the first 20 n.
  lemma CompactOutboxDrains(service: string, x: Ends, times: seq<Instant>, batches: seq<seq<Claim>>)
    requires service != RESERVED_SLUG && times != [] && SoundEnds(service, x, times[0])
    requires History(service, x, times, batches, Compact)
    requires forall id | id in PendingIds(x.box) :: Due(x.box, id, times[0])
    ensures |PendingIds(After(service, x, times, batches, Compact).box)|
         == if |PendingIds(x.box)| <= BATCH_SIZE * |times| then 0 else |PendingIds(x.box)| - BATCH_SIZE * |times|
  {
    CompactHistoryFits(service, x, times, batches);
    hide SoundEnds, History, After, EveryBodyFits;
    DueOutboxDrains(service, x, times, batches, Compact);
  }

  // ---------------------------------------------------------------- the SELECT always has an answer

  lemma {:induction false} TextBeforeTotal(a: string, b: string)
    ensures a == b || TextBefore(a, b) || TextBefore(b, a)
    decreases |a|
  {
    if a != "" && b != "" && a[0] == b[0] {
      TextBeforeTotal(a[1..], b[1..]);
      assert a == [a[0]] + a[1..] && b == [b[0]] + b[1..];
    }
  }

  lemma {:induction false} TextBeforeTransitive(a: string, b: string, c: string)
    requires TextBefore(a, b) && TextBefore(b, c)
    ensures TextBefore(a, c)
    decreases |a|
  {
    if a != "" && a[0] == b[0] == c[0] {
      TextBeforeTransitive(a[1..], b[1..], c[1..]);
    }
  }

  lemma ReadsBeforeTransitive(b: Box, x: string, y: string, z: string)
    requires x in b.events && y in b.events && z in b.events
    requires ReadsBefore(b, x, y) && ReadsBefore(b, y, z)
    ensures ReadsBefore(b, x, z)
  {
    if b.events[x].createdAt == b.events[y].createdAt == b.events[z].createdAt {
      TextBeforeTransitive(x, y, z);
    }
  }

  lemma {:induction false} LastRead(b: Box, ids: set<string>) returns (m: string)
    requires ids != {} && ids <= b.events.Keys
    ensures m in ids
    ensures forall id | id in ids && id != m :: ReadsBefore(b, id, m)
    decreases |ids|
  {
    var x :| x in ids;
    var rest := ids - {x};
    if rest == {} {
      assert ids == {x};
      m := x;
    } else {
      var n := LastRead(b, rest);
      TextBeforeTotal(x, n);
      m := if ReadsBefore(b, x, n) then n else x;
      forall id | id in ids && id != m
        ensures ReadsBefore(b, id, m)
      {
        if m == x && id != n {
          ReadsBeforeTransitive(b, id, n, x);
        }
      }
    }
  }

  lemma {:induction false} InReadingOrder(b: Box, ids: set<string>) returns (order: seq<string>)
    requires ids <= b.events.Keys
    ensures |order| == |ids| && forall id :: id in order <==> id in ids
    ensures forall i, j | 0 <= i < j < |order| :: order[i] != order[j] && ReadsBefore(b, order[i], order[j])
    decreases |ids|
  {
    if ids == {} {
      order := [];
    } else {
      var m := LastRead(b, ids);
      var front := InReadingOrder(b, ids - {m});
      order := front + [m];
    }
  }

  // Whatever the outbox holds, there is a due batch, so a history can always go on.
  lemma BatchExists(b: Box, now: Instant) returns (batch: seq<Claim>)
    requires Wired(b)
    ensures DueBatch(b, now, batch)
  {
    var due := set id | id in b.events && Due(b, id, now);
    var order := InReadingOrder(b, due);
    var n := Min(BATCH_SIZE, |order|);
    assert forall i | 0 <= i < n :: order[i] in due && order[i] in b.events && order[i] in b.delivery;
    batch := seq(n, i requires 0 <= i < n && order[i] in b.events && order[i] in b.delivery =>
      Claim(order[i], b.events[order[i]].payload, b.delivery[order[i]].attempts));
    forall k | 0 <= k < n
      ensures order[k] in Ids(batch)
    {
      assert batch[k].eventId == order[k];
    }
    forall id | id in b.events && Due(b, id, now) && id !in Ids(batch)
      ensures |batch| == BATCH_SIZE && forall i | 0 <= i < |batch| :: ReadsBefore(b, batch[i].eventId, id)
    {
      assert id in due && id in order;
      var k :| 0 <= k < |order| && order[k] == id;
      assert k >= n;
    }
  }
}
