/** An outbox the escaping publisher can never empty: twenty valid events whose text is mostly accented
    letters (backend/app/activity_contract.py:43-94, 371-373, backend/app/routers/activity.py:29-33). */
module OutboxRefused {
  import opened Options
  import opened ActivityContract
  import opened ActivityCollector
  import opened JsonText
  import opened OutboxDrain
  import opened OutboxProtocol
  import opened Uuids

  // 2026-09-01T00:00:00+00:00
  const WRITTEN_AT: Instant := 1_788_220_800 * SECOND

  const WIDE_FIELDS: nat := 70

  // A field name of 64 letters that take two bytes each in UTF-8 and six when escaped; the first one
  // tells the names apart.
  function WideName(i: nat): (s: string)
    requires i < WIDE_FIELDS
    ensures |s| == 64 && forall k | 0 <= k < 64 :: 0x80 <= s[k] as int < 0x800
  {
    [(0x100 + i) as char] + seq(63, _ => '\U{e9}')
  }

  function WideNames(): (xs: seq<string>)
    ensures |xs| == WIDE_FIELDS && forall i | 0 <= i < |xs| :: xs[i] == WideName(i)
  {
    seq(WIDE_FIELDS, i requires 0 <= i < WIDE_FIELDS => WideName(i))
  }

  function Digit(n: nat): char
    requires n < 10
  {
    (n + '0' as int) as char
  }

  function WideId(i: nat): string
    requires i < BATCH_SIZE
  {
    Dashed("00000000", "0000", "4000", "8000", "0000000000" + [Digit(i / 10), Digit(i % 10)])
  }

  // One update of seventy fields with such names.
  function WideEvent(i: nat): Event
    requires i < BATCH_SIZE
  {
    Event(1, WideId(i), "erp", Actor("user:1", "human", None, None), "orders.update", Target("orders", "1"),
          Stamp("2026-09-01T00:00:00+00:00", Aware(WRITTEN_AT)), "success", true, None, None, WideNames(), map[])
  }

  // make_event writes sorted(set(changed_fields)): strictly ascending text, which these names are.
  ghost predicate Ascending(xs: seq<string>) {
    forall i, j | 0 <= i < j < |xs| :: TextBefore(xs[i], xs[j])
  }

  lemma WideNamesAscend(i: nat)
    requires i < BATCH_SIZE
    ensures Ascending(WideEvent(i).changedFields)
  {
    var names := WideNames();
    forall x, y | 0 <= x < y < |names| ensures TextBefore(names[x], names[y]) {
      assert names[x][0] < names[y][0];
    }
  }

  lemma IdsDiffer(i: nat, j: nat)
    requires i < j < BATCH_SIZE
    ensures WideId(i) != WideId(j)
  {
    assert |WideId(i)| == 36 && |WideId(j)| == 36;
    assert WideId(i)[34] == Digit(i / 10) && WideId(i)[35] == Digit(i % 10);
    assert WideId(j)[34] == Digit(j / 10) && WideId(j)[35] == Digit(j % 10);
  }

  // ---------------------------------------------------------------- how long it is

  ghost predicate Plain(s: string) {
    forall i | 0 <= i < |s| :: ' ' <= s[i] <= '~' && s[i] != '"' && s[i] != '\\'
  }

  lemma PlainBytes(s: string, enc: Encoder)
    requires Plain(s)
    ensures TextBytes(s, enc) == |s| + 2
  {
    UniformText(s, enc, 1);
  }

  lemma WideNamesBytes(enc: Encoder)
    ensures ListBytes(WideNames(), enc) == if enc == Compact then 9171 else 27160
  {
    var n := if enc == Compact then 2 else 6;
    forall i | 0 <= i < WIDE_FIELDS ensures TextBytes(WideName(i), enc) == 2 + 64 * n {
      UniformText(WideName(i), enc, n);
    }
    UniformItems(WideNames(), enc, 2 + 64 * n);
  }

  lemma PlainTexts()
    ensures Plain("erp") && Plain("user:1") && Plain("human") && Plain("orders.update") && Plain("orders") && Plain("1")
    ensures Plain("2026-09-01T00:00:00+00:00") && Plain("success")
    ensures forall i | 0 <= i < BATCH_SIZE :: Plain(WideId(i)) && |WideId(i)| == 36
  {}

  lemma NoChanges(keys: seq<string>, enc: Encoder)
    ensures EntriesBytes(map[], keys, enc) == 0
  {}

  lemma WideBytes(i: nat, enc: Encoder)
    requires i < BATCH_SIZE
    ensures EventBytes(WideEvent(i), enc) == if enc == Compact then 9542 else 27566
  {
    hide Plain, WideId, WideNames, ListBytes, TextBytes, EntriesBytes;
    PlainTexts();
    PlainBytes("erp", enc);
    PlainBytes("user:1", enc);
    PlainBytes("human", enc);
    PlainBytes("orders.update", enc);
    PlainBytes("orders", enc);
    PlainBytes("1", enc);
    PlainBytes("2026-09-01T00:00:00+00:00", enc);
    PlainBytes("success", enc);
    PlainBytes(WideId(i), enc);
    WideNamesBytes(enc);
    NoChanges(SAFE_KEYS, enc);
  }

  lemma WideIsValid(i: nat)
    requires i < BATCH_SIZE
    ensures ValidEvent(WideEvent(i), WRITTEN_AT)
  {
    hide EventBytes, UuidText, WideId;
    WideBytes(i, Compact);
    WideTexts();
    WideUuid(i);
    hide ValidService, ValidAction, Bounded;
  }

  lemma WideTexts()
    ensures ValidService("erp") && ValidAction("orders.update")
    ensures Bounded("user:1", 180) && Bounded("orders", 64) && Bounded("1", 180)
        && Bounded("2026-09-01T00:00:00+00:00", 64)
    ensures forall i | 0 <= i < WIDE_FIELDS :: Bounded(WideName(i), 64)
  {}

  lemma WideUuid(i: nat)
    requires i < BATCH_SIZE
    ensures UuidText(WideId(i))
  {
    hide UuidText;
    PlainUuid("00000000", "0000", "4000", "8000", "0000000000" + [Digit(i / 10), Digit(i % 10)]);
  }

  // ---------------------------------------------------------------- what becomes of it

  function WideIds(): (ids: set<string>) {
    set i | 0 <= i < BATCH_SIZE :: WideId(i)
  }

  // The outbox holds the twenty events, each tried as often as the others and never delivered; whatever
  // else it holds was recorded after them.
  ghost predicate Stuck(b: Box) {
    WideEvidence(b.events) && WideIds() <= b.delivery.Keys && exists d :: EvenlyTried(b.delivery, d)
  }

  ghost predicate WideEvidence(events: map<string, Evidence>) {
    && WideIds() <= events.Keys
    && (forall i | 0 <= i < BATCH_SIZE ::
          events[WideId(i)] == Evidence(WideEvent(i), Sha256(WideEvent(i)), WRITTEN_AT))
    && forall id | id in events && id !in WideIds() :: events[id].createdAt > WRITTEN_AT
  }

  ghost predicate EvenlyTried(delivery: map<string, Delivery>, d: Delivery) {
    d.deliveredAt.None? && forall id | id in WideIds() && id in delivery :: delivery[id] == d
  }

  ghost predicate IsWide(e: Event) {
    exists i :: 0 <= i < BATCH_SIZE && e == WideEvent(i)
  }

  // The outbox after enqueueing the first `n` of them.
  ghost function Filled(n: nat): Box
    requires n <= BATCH_SIZE
  {
    if n == 0 then Box(map[], map[])
    else match Enqueued(Filled(n - 1), WideEvent(n - 1), WRITTEN_AT)
         case Ok(box) => box
         case Err(_) => Filled(n - 1)
  }

  // Every one of them is accepted.
  lemma {:induction false} FilledHolds(n: nat)
    requires n <= BATCH_SIZE
    ensures var ids := set i | 0 <= i < n :: WideId(i);
            var b := Filled(n);
            && b.events.Keys == ids && b.delivery.Keys == ids
            && (forall i | 0 <= i < n ::
              b.events[WideId(i)] == Evidence(WideEvent(i), Sha256(WideEvent(i)), WRITTEN_AT))
            && (forall id | id in ids :: b.delivery[id] == NEVER_TRIED)
  {
    hide ValidEvent, WideId;
    if n > 0 {
      FilledHolds(n - 1);
      WideIsValid(n - 1);
      forall i | 0 <= i < n - 1 ensures WideId(i) != WideId(n - 1) {
        IdsDiffer(i, n - 1);
      }
    }
  }

  lemma FilledIsStuck()
    ensures Stuck(Filled(BATCH_SIZE)) && SoundEnds("erp", Ends(Filled(BATCH_SIZE), []), WRITTEN_AT)
  {
    hide ValidEvent, WideId, Filled;
    FilledHolds(BATCH_SIZE);
    assert EvenlyTried(Filled(BATCH_SIZE).delivery, NEVER_TRIED);
    forall i | 0 <= i < BATCH_SIZE ensures ValidEvent(WideEvent(i), WRITTEN_AT) {
      WideIsValid(i);
    }
  }

  lemma TwentyIds()
    ensures |WideIds()| == BATCH_SIZE
  {
    hide WideId;
    var rows := seq(BATCH_SIZE, i requires 0 <= i < BATCH_SIZE => Claim(WideId(i), WideEvent(i), 0));
    forall i, j | 0 <= i < j < BATCH_SIZE ensures rows[i].eventId != rows[j].eventId {
      IdsDiffer(i, j);
    }
    IdsCardinality(rows);
    assert Ids(rows) == WideIds() by {
      forall id | id in WideIds() ensures id in Ids(rows) {
        var i :| 0 <= i < BATCH_SIZE && WideId(i) == id;
        assert rows[i].eventId == id;
      }
    }
  }

  lemma {:induction false} WideWire(events: seq<Event>)
    requires forall k | 0 <= k < |events| :: IsWide(events[k])
    ensures WireBytes(events, Escaping) == 27566 * |events|
    decreases |events|
  {
    hide EventBytes, WideEvent;
    if events != [] {
      var i :| 0 <= i < BATCH_SIZE && events[0] == WideEvent(i);
      WideBytes(i, Escaping);
      assert forall k | 0 <= k < |events[1..]| :: events[1..][k] == events[k + 1];
      WideWire(events[1..]);
    }
  }

  lemma Full(a: set<string>, b: set<string>)
    requires a <= b && |a| >= |b|
    ensures a == b
  {
    if x :| x in b && x !in a {
      CardinalityMono(a + {x}, b);
    }
  }

  // All of them are due together and read before anything else: a batch takes exactly the twenty, or
  // none of them.
  lemma StuckTaken(x: Ends, batch: seq<Claim>, now: Instant)
    requires Wired(x.box) && Stuck(x.box) && DueBatch(x.box, now, batch)
    ensures Ids(batch) == WideIds() || Ids(batch) !! WideIds()
  {
    hide WideIds, WideEvidence, WideId, WideEvent;
    TwentyIds();
    IdsCardinality(batch);
    if own :| own in Ids(batch) && own in WideIds() {
      AllDue(x.box, own, now);
      OnlyWide(x.box, batch, now);
      hide DueBatch, Stuck, Ids;
      if WideIds() <= Ids(batch) {
        Full(WideIds(), Ids(batch));
      } else {
        Full(Ids(batch), WideIds());
      }
    }
  }

  lemma AllDue(b: Box, own: string, now: Instant)
    requires Stuck(b) && own in WideIds() && Due(b, own, now)
    ensures forall id | id in WideIds() :: Due(b, id, now)
  {
    hide WideIds, WideEvidence;
    var d :| EvenlyTried(b.delivery, d);
  }

  // One that is due and left out leaves no room for a later row.
  lemma OnlyWide(b: Box, batch: seq<Claim>, now: Instant)
    requires Wired(b) && WideEvidence(b.events) && DueBatch(b, now, batch)
    requires forall id | id in WideIds() :: Due(b, id, now)
    ensures WideIds() <= Ids(batch) || (|batch| == BATCH_SIZE && Ids(batch) <= WideIds())
  {
    WideWrittenFirst(b.events);
    hide WideIds, WideEvidence, TextBefore;
    if id :| id in WideIds() && id !in Ids(batch) {
      forall k | 0 <= k < |batch| ensures batch[k].eventId in WideIds() {
        assert ReadsBefore(b, batch[k].eventId, id);
      }
    }
  }

  lemma WideWrittenFirst(events: map<string, Evidence>)
    requires WideEvidence(events)
    ensures forall id | id in WideIds() :: id in events && events[id].createdAt == WRITTEN_AT
    ensures forall id | id in events && id !in WideIds() :: events[id].createdAt > WRITTEN_AT
  {
    hide WideId, WideEvent;
  }

  lemma StuckPayloads(b: Box, batch: seq<Claim>, now: Instant, k: int)
    requires WideEvidence(b.events) && DueBatch(b, now, batch) && 0 <= k < |batch| && batch[k].eventId in WideIds()
    ensures IsWide(batch[k].payload)
  {
    hide WideId, WideEvent;
    var i :| 0 <= i < BATCH_SIZE && WideId(i) == batch[k].eventId;
  }

  // Their body never fits.
  lemma StuckRefused(b: Box, batch: seq<Claim>, now: Instant)
    requires WideEvidence(b.events) && DueBatch(b, now, batch) && Ids(batch) == WideIds()
    ensures !Fits(batch, Escaping)
  {
    hide WideEvent, IsWide, WireBytes, WideEvidence, WideIds;
    TwentyIds();
    IdsCardinality(batch);
    forall k | 0 <= k < |batch| ensures IsWide(Payloads(batch)[k]) {
      assert batch[k].eventId in Ids(batch);
      StuckPayloads(b, batch, now, k);
    }
    hide DueBatch, Ids;
    WideWire(Payloads(batch));
  }

  // A refused batch leaves the rows it holds with one and the same record.
  lemma MarkedEvenly(delivery: map<string, Delivery>, batch: seq<Claim>, answer: Answer, now: Instant, d: Delivery)
    requires EvenlyTried(delivery, d) && Ids(batch) == WideIds() && batch != [] && DistinctIds(batch)
    requires answer.acked == {} && forall k | 0 <= k < |batch| :: batch[k].attempts == d.attempts
    ensures EvenlyTried(MarkAll(delivery, batch, answer, now), MarkOne(d, batch[0], answer, now))
  {
    hide MarkAll, RetryDelay, WideIds;
    forall id | id in WideIds() && id in delivery
      ensures MarkAll(delivery, batch, answer, now)[id] == MarkOne(d, batch[0], answer, now)
    {
      MarkAllAt(delivery, batch, answer, now, id);
      var k :| 0 <= k < |batch| && batch[k].eventId == id;
    }
  }

  lemma MarkedElsewhere(delivery: map<string, Delivery>, batch: seq<Claim>, answer: Answer, now: Instant, d: Delivery)
    requires EvenlyTried(delivery, d) && Ids(batch) !! WideIds() && DistinctIds(batch)
    ensures EvenlyTried(MarkAll(delivery, batch, answer, now), d)
  {
    hide MarkAll, MarkOne, WideIds, Ids;
    forall id | id in WideIds() && id in delivery ensures MarkAll(delivery, batch, answer, now)[id] == d {
      MarkAllAt(delivery, batch, answer, now, id);
    }
  }

  lemma StuckMarked(b: Box, batch: seq<Claim>, answer: Answer, now: Instant)
    requires Wired(b) && Stuck(b) && DueBatch(b, now, batch) && batch != []
    requires Ids(batch) !! WideIds() || (Ids(batch) == WideIds() && answer.acked == {})
    ensures Stuck(b.(delivery := MarkAll(b.delivery, batch, answer, now)))
  {
    hide WideIds, WideEvidence, MarkAll, MarkOne;
    var d :| EvenlyTried(b.delivery, d);
    if Ids(batch) !! WideIds() {
      MarkedElsewhere(b.delivery, batch, answer, now, d);
    } else {
      forall k | 0 <= k < |batch| ensures batch[k].attempts == d.attempts {
        assert batch[k].eventId in Ids(batch);
      }
      MarkedEvenly(b.delivery, batch, answer, now, d);
    }
  }

  // Which of the twenty the collector holds.
  ghost function Arrived(rows: seq<Row>): set<string> {
    set i | 0 <= i < |rows| && rows[i].service == "erp" && rows[i].eventId in WideIds() :: rows[i].eventId
  }

  lemma OthersArrive(x: Ends, batch: seq<Claim>, now: Instant)
    requires SoundEnds("erp", x, now) && DueBatch(x.box, now, batch) && batch != [] && Ids(batch) !! WideIds()
    ensures Arrived(Round("erp", x, batch, Escaping, now).rows) == Arrived(x.rows)
  {
    hide ValidEvent, Collect, BodyBytes, WideIds, MarkAll;
    var events := Payloads(batch);
    var rows := Round("erp", x, batch, Escaping, now).rows;
    CollectEffect(x.rows, Request("erp", events, BodyBytes(events, Escaping)), now);
    forall i | |x.rows| <= i < |rows| ensures rows[i].eventId !in WideIds() {
      var k :| 0 <= k < |events| && events[k] == rows[i].payload;
      assert batch[k].eventId in Ids(batch);
    }
    forall id ensures id in Arrived(rows) <==> id in Arrived(x.rows) {
      if id in Arrived(x.rows) {
        var i :| 0 <= i < |x.rows| && x.rows[i].service == "erp" && x.rows[i].eventId == id;
        assert rows[i] == x.rows[i];
      }
    }
  }

  lemma StuckRound(x: Ends, batch: seq<Claim>, now: Instant)
    requires SoundEnds("erp", x, now) && Stuck(x.box) && DueBatch(x.box, now, batch)
    ensures var y := Round("erp", x, batch, Escaping, now);
            SoundEnds("erp", y, now) && Stuck(y.box) && Arrived(y.rows) == Arrived(x.rows)
  {
    hide ValidEvent, Fits, BodyBytes, DueBatch, EvenlyTried, WideEvidence, WideIds, Ids, MarkAll, StoreAll, Arrived;
    RoundKeepsSound("erp", x, batch, Escaping, now);
    if batch != [] {
      StuckTaken(x, batch, now);
      AnswerOfRound("erp", x, batch, Escaping, now);
      if Ids(batch) == WideIds() {
        StuckRefused(x.box, batch, now);
        BatchOutcome("erp", x, batch, Escaping, now);
      } else {
        OthersArrive(x, batch, now);
      }
      StuckMarked(x.box, batch, OutboxDrain.Answered("erp", x, batch, Escaping, now), now);
      hide SoundEnds, Stuck;
    }
  }

  // ---------------------------------------------------------------- a life of the outbox

  // A round of the publisher, or one more event recorded after the twenty.
  datatype Move = Publish(at: Instant, batch: seq<Claim>) | Record(at: Instant, event: Event)

  ghost function Moved(x: Ends, m: Move): Ends {
    match m
    case Publish(at, batch) => Round("erp", x, batch, Escaping, at)
    case Record(at, event) =>
      if event.service == "erp" && Enqueued(x.box, event, at).Ok? then x.(box := Enqueued(x.box, event, at).value)
      else x
  }

  // Time does not run back, each batch is what the SELECT answers, and events are recorded later.
  ghost predicate Legal(x: Ends, moves: seq<Move>, from: Instant)
    decreases |moves|
  {
    moves != [] ==>
      && from <= moves[0].at
      && (match moves[0]
          case Publish(at, batch) => DueBatch(x.box, at, batch)
          case Record(at, _) => at > WRITTEN_AT)
      && Legal(Moved(x, moves[0]), moves[1..], moves[0].at)
  }

  ghost function Played(x: Ends, moves: seq<Move>): Ends
    decreases |moves|
  {
    if moves == [] then x else Played(Moved(x, moves[0]), moves[1..])
  }

  lemma LaterEvidence(events: map<string, Evidence>, id: string, row: Evidence)
    requires WideEvidence(events) && id !in events && row.createdAt > WRITTEN_AT
    ensures WideEvidence(events[id := row])
  {
    hide WideId, WideEvent;
    forall i | 0 <= i < BATCH_SIZE ensures WideId(i) in WideIds() {}
  }

  lemma SoundRecorded(x: Ends, event: Event, at: Instant)
    requires SoundEnds("erp", x, at)
    ensures SoundEnds("erp", Moved(x, Record(at, event)), at)
  {
    hide ValidEvent, UniqueKeys, FaithfulRows;
  }

  lemma StuckRecorded(x: Ends, event: Event, at: Instant)
    requires SoundEnds("erp", x, at) && Stuck(x.box) && at > WRITTEN_AT
    ensures SoundEnds("erp", Moved(x, Record(at, event)), at) && Stuck(Moved(x, Record(at, event)).box)
  {
    SoundRecorded(x, event, at);
    hide ValidEvent, WideIds, WideEvidence, SoundEnds;
    if event.service == "erp" && Enqueued(x.box, event, at).Ok? {
      var b := Enqueued(x.box, event, at).value;
      LaterEvidence(x.box.events, event.eventId, b.events[event.eventId]);
      assert WideIds() <= x.box.delivery.Keys && event.eventId !in x.box.delivery;
      var d :| EvenlyTried(x.box.delivery, d);
      assert EvenlyTried(b.delivery, d);
    }
  }

  // Whatever rounds the escaping publisher makes, and whatever is recorded later, at whatever times, not
  // one of the twenty valid events it accepted is ever delivered or stored.
  lemma {:induction false} RefusedForever(x: Ends, moves: seq<Move>, from: Instant)
    requires Stuck(x.box) && SoundEnds("erp", x, from) && Legal(x, moves, from)
    ensures WideIds() <= PendingIds(Played(x, moves).box)
    ensures Arrived(Played(x, moves).rows) == Arrived(x.rows)
    decreases |moves|
  {
    hide WideIds, DueBatch, SoundEnds, Arrived, Round;
    if moves == [] {
      StuckPending(x.box);
    } else {
      hide Stuck;
      SoundLater("erp", x, from, moves[0].at);
      match moves[0] {
        case Publish(at, batch) => StuckRound(x, batch, at);
        case Record(at, event) => StuckRecorded(x, event, at);
      }
      RefusedForever(Moved(x, moves[0]), moves[1..], moves[0].at);
    }
  }

  lemma StuckPending(b: Box)
    requires Stuck(b)
    ensures WideIds() <= PendingIds(b)
  {
    hide WideIds, WideEvidence;
  }
}
