/** The activity event contract and one service's transactional outbox
    (backend/app/activity_contract.py). */
module ActivityContract {
  import opened JsonText
  import opened Options
  import opened Uuids

  // Microseconds since the epoch.
  type Instant = int

  const SECOND: int := 1_000_000
  const FUTURE_TOLERANCE: int := 300 * SECOND
  const MAX_EVENT_BYTES: nat := 12_000
  const BATCH_SIZE: nat := 20
  const SAFE_KEYS: seq<string> :=
    ["status", "priority", "is_active", "is_private", "assignee_sub", "approver_sub", "decision",
     "version", "mode", "role", "permissions"]
  const SAFE_VALUES: set<string> := set i | 0 <= i < |SAFE_KEYS| :: SAFE_KEYS[i]

  // ---------------------------------------------------------------- events

  datatype Actor = Actor(subject: string, kind: string, name: Option<string>, employeeCode: Option<string>)

  datatype Target = Target(kind: string, id: string)

  // How datetime.fromisoformat reads a timestamp's text.
  datatype Reading = Unreadable | Naive | Aware(at: Instant)

  datatype Stamp = Stamp(text: string, reading: Reading)

  // A JSON value in a change snapshot; NotScalar stands for a list, an object or a float.
  datatype Scalar = Null | Text(text: string) | Number(n: int) | Flag(b: bool) | NotScalar

  datatype Change = Change(before: Scalar, after: Scalar)

  datatype Event = Event(
    schemaVersion: int, eventId: string, service: string, actor: Actor, action: string,
    target: Target, occurredAt: Stamp, outcome: string, restricted: bool, department: Option<string>,
    requestId: Option<string>, changedFields: seq<string>, changes: map<string, Change>)

  function ScalarBytes(v: Scalar, enc: Encoder): nat {
    match v
    case Null => 4
    case Text(t) => TextBytes(t, enc)
    case Number(n) => NumberBytes(n)
    case Flag(b) => FlagBytes(b)
    case NotScalar => 0
  }

  function ChangeBytes(c: Change, enc: Encoder): nat {
    FrameBytes(2, 11, enc) + ScalarBytes(c.before, enc) + ScalarBytes(c.after, enc)
  }

  function EntriesBytes(changes: map<string, Change>, keys: seq<string>, enc: Encoder): nat {
    if keys == [] then 0
    else
      var k := keys[|keys| - 1];
      EntriesBytes(changes, keys[..|keys| - 1], enc)
      + (if k in changes then TextBytes(k, enc) + Separator(enc) + ChangeBytes(changes[k], enc) else 0)
  }

  // A map of changes under the allowed keys.
  function ChangesBytes(changes: map<string, Change>, enc: Encoder): nat {
    2 + EntriesBytes(changes, SAFE_KEYS, enc) + JoinBytes(|changes|, enc)
  }

  // The event as JSON: thirteen members, with an actor of four and a target of two.
  function EventBytes(e: Event, enc: Encoder): nat {
    FrameBytes(13, 115, enc) + FrameBytes(4, 28, enc) + FrameBytes(2, 6, enc)
    + TextBytes(e.action, enc)
    + OptionalBytes(e.actor.employeeCode, enc) + OptionalBytes(e.actor.name, enc)
    + TextBytes(e.actor.subject, enc) + TextBytes(e.actor.kind, enc)
    + ListBytes(e.changedFields, enc) + ChangesBytes(e.changes, enc)
    + OptionalBytes(e.department, enc) + TextBytes(e.eventId, enc)
    + TextBytes(e.occurredAt.text, enc) + TextBytes(e.outcome, enc)
    + OptionalBytes(e.requestId, enc) + FlagBytes(e.restricted)
    + NumberBytes(e.schemaVersion) + TextBytes(e.service, enc)
    + TextBytes(e.target.id, enc) + TextBytes(e.target.kind, enc)
  }

  predicate Bounded(text: string, limit: nat) {
    && text != ""
    && |text| <= limit
    && forall i | 0 <= i < |text| :: text[i] as int >= 32
  }

  predicate BoundedOptional(text: Option<string>, limit: nat) {
    text.Some? ==> Bounded(text.value, limit)
  }

  predicate Lower(c: char) {
    'a' <= c <= 'z' || '0' <= c <= '9' || c == '_' || c == '-'
  }

  predicate ValidService(text: string) {
    1 <= |text| <= 64 && forall i | 0 <= i < |text| :: Lower(text[i])
  }

  predicate ValidAction(text: string) {
    1 <= |text| <= 96 && forall i | 0 <= i < |text| :: Lower(text[i]) || text[i] == '.'
  }

  predicate ValidScalar(v: Scalar) {
    match v
    case NotScalar => false
    case Text(t) => |t| <= 180 && forall i | 0 <= i < |t| :: t[i] as int >= 32
    case _ => true
  }

  predicate ValidActor(a: Actor) {
    && Bounded(a.subject, 180)
    && BoundedOptional(a.name, 180)
    && BoundedOptional(a.employeeCode, 32)
    && a.kind in {"human", "service", "system", "legacy_unknown"}
  }

  predicate ValidEvent(e: Event, now: Instant) {
    && e.schemaVersion == 1
    && UuidText(e.eventId)
    && ValidService(e.service)
    && ValidAction(e.action)
    && ValidActor(e.actor)
    && Bounded(e.target.kind, 64)
    && Bounded(e.target.id, 180)
    && BoundedOptional(e.department, 180)
    && BoundedOptional(e.requestId, 128)
    && Bounded(e.occurredAt.text, 64)
    && e.occurredAt.reading.Aware?
    && e.occurredAt.reading.at <= now + FUTURE_TOLERANCE
    && e.outcome in {"success", "denied", "failed"}
    && |e.changedFields| <= 100
    && (forall i | 0 <= i < |e.changedFields| :: Bounded(e.changedFields[i], 64))
    && e.changes.Keys <= SAFE_VALUES
    && (forall k | k in e.changes :: ValidScalar(e.changes[k].before) && ValidScalar(e.changes[k].after))
    && EventBytes(e, Compact) <= MAX_EVENT_BYTES
  }

  // SHA-256 of the canonical text, taken as injective.
  datatype Digest = Sha256(of: Event)

  // ---------------------------------------------------------------- outbox

  datatype Evidence = Evidence(payload: Event, digest: Digest, createdAt: Instant)

  datatype Delivery = Delivery(attempts: nat, deliveredAt: Option<Instant>,
                               nextAttemptAt: Option<Instant>, lastError: Option<string>)

  datatype Box = Box(events: map<string, Evidence>, delivery: map<string, Delivery>)

  // What a publisher remembers of a row it has read.
  datatype Claim = Claim(eventId: string, payload: Event, attempts: nat)

  datatype EnqueueError = InvalidEvent | DuplicateId

  const NEVER_TRIED := Delivery(0, None, None, None)

  ghost predicate Wired(b: Box) {
    b.delivery.Keys == b.events.Keys
  }

  function Enqueued(b: Box, e: Event, now: Instant): Result<Box, EnqueueError> {
    if !ValidEvent(e, now) then Err(InvalidEvent)
    else if e.eventId in b.events || e.eventId in b.delivery then Err(DuplicateId)
    else Ok(Box(b.events[e.eventId := Evidence(e, Sha256(e), now)], b.delivery[e.eventId := NEVER_TRIED]))
  }

  predicate Pending(b: Box, id: string) {
    id in b.delivery && b.delivery[id].deliveredAt == None
  }

  predicate Due(b: Box, id: string, now: Instant) {
    && Pending(b, id)
    && (b.delivery[id].nextAttemptAt.None? || b.delivery[id].nextAttemptAt.value <= now)
  }

  // Text order, character by character.
  predicate TextBefore(a: string, b: string) {
    if b == "" then false
    else if a == "" then true
    else if a[0] != b[0] then a[0] < b[0]
    else TextBefore(a[1..], b[1..])
  }

  // ORDER BY created_at, event_id.
  predicate ReadsBefore(b: Box, x: string, y: string)
    requires x in b.events && y in b.events
  {
    || b.events[x].createdAt < b.events[y].createdAt
    || (b.events[x].createdAt == b.events[y].createdAt && TextBefore(x, y))
  }

  ghost function Ids(rows: seq<Claim>): (ids: set<string>) {
    set i | 0 <= i < |rows| :: rows[i].eventId
  }

  ghost predicate DistinctIds(rows: seq<Claim>) {
    forall i, j | 0 <= i < j < |rows| :: rows[i].eventId != rows[j].eventId
  }

  // The answer of the publisher's SELECT: the first BATCH_SIZE due rows in reading order.
  ghost predicate DueBatch(b: Box, now: Instant, rows: seq<Claim>) {
    && |rows| <= BATCH_SIZE
    && (forall i | 0 <= i < |rows| ::
          && rows[i].eventId in b.events
          && Due(b, rows[i].eventId, now)
          && rows[i].payload == b.events[rows[i].eventId].payload
          && rows[i].attempts == b.delivery[rows[i].eventId].attempts)
    && (forall i, j | 0 <= i < j < |rows| :: ReadsBefore(b, rows[i].eventId, rows[j].eventId))
    && DistinctIds(rows)
    && (forall id | id in b.events && Due(b, id, now) && id !in Ids(rows) ::
          |rows| == BATCH_SIZE && forall i | 0 <= i < |rows| :: ReadsBefore(b, rows[i].eventId, id))
  }

  // ---------------------------------------------------------------- marking

  function Min(a: int, b: int): int { if a < b then a else b }

  function Pow2(n: nat): nat { if n == 0 then 1 else 2 * Pow2(n - 1) }

  // Seconds until the next try after `attempts` tries.
  function RetryDelay(attempts: nat): int {
    Min(300, Pow2(Min(attempts, 8)))
  }

  lemma {:induction false} Pow2Grows(m: nat, n: nat)
    requires m <= n
    ensures Pow2(m) <= Pow2(n)
    decreases n
  {
    if m < n { Pow2Grows(m, n - 1); }
  }

  // The 300 s cap never binds: the delay is the power of two itself, between 2 and 256 s, and never
  // shrinks as attempts accumulate.
  lemma RetryDelayIsPowerOfTwo(attempts: nat)
    requires attempts >= 1
    ensures RetryDelay(attempts) == Pow2(Min(attempts, 8))
    ensures 2 <= RetryDelay(attempts) <= 256
    ensures RetryDelay(attempts) <= RetryDelay(attempts + 1)
  {
    Pow2Grows(1, Min(attempts, 8));
    Pow2Grows(Min(attempts, 8), 8);
    Pow2Grows(Min(attempts, 8), Min(attempts + 1, 8));
    Pow2Grows(Min(attempts + 1, 8), 8);
    assert Pow2(8) == 256 by {
      assert Pow2(4) == 16;
      assert Pow2(6) == 64;
    }
  }

  datatype Response = Failed(error: string) | Body(acknowledged: seq<string>)

  datatype Answer = Answer(acked: set<string>, error: Option<string>)

  function Named(r: Response): set<string>
    requires r.Body?
  {
    set i | 0 <= i < |r.acknowledged| :: r.acknowledged[i]
  }

  // An acknowledgement naming anything the publisher did not send is an error and acknowledges nothing.
  function ReadResponse(ids: set<string>, r: Response): (a: Answer)
    ensures a.acked == if r.Body? && Named(r) <= ids then Named(r) else {}
    ensures a.error.None? <==> r.Body? && Named(r) == ids
  {
    match r
    case Failed(error) => Answer({}, Some(error))
    case Body(ack) =>
      var named := Named(r);
      if !(named <= ids) then Answer({}, Some("ValueError"))
      else Answer(named, if named == ids then None else Some("partial_acknowledgement"))
  }

  // UPDATE ... WHERE event_id = :id AND delivered_at IS NULL
  function MarkOne(d: Delivery, row: Claim, answer: Answer, now: Instant): Delivery {
    if d.deliveredAt.Some? then d
    else if row.eventId in answer.acked then Delivery(row.attempts + 1, Some(now), None, None)
    else Delivery(row.attempts + 1, None,
                  Some(now + RetryDelay(row.attempts + 1) * SECOND), answer.error)
  }

  function MarkAll(delivery: map<string, Delivery>, rows: seq<Claim>, answer: Answer, now: Instant)
    : (r: map<string, Delivery>)
    ensures r.Keys == delivery.Keys
  {
    if rows == [] then delivery
    else
      var id := rows[0].eventId;
      var next := if id in delivery then delivery[id := MarkOne(delivery[id], rows[0], answer, now)] else delivery;
      MarkAll(next, rows[1..], answer, now)
  }

  // Marking a batch changes exactly its undelivered rows, each one once; a row already delivered, by
  // whatever publisher, keeps every column.
  lemma {:induction false} MarkAllAt(delivery: map<string, Delivery>, rows: seq<Claim>, answer: Answer, now: Instant,
      id: string)
    requires id in delivery
    requires DistinctIds(rows)
    ensures id !in Ids(rows) || delivery[id].deliveredAt.Some? ==>
        MarkAll(delivery, rows, answer, now)[id] == delivery[id]
    ensures forall i | 0 <= i < |rows| && rows[i].eventId == id ::
              MarkAll(delivery, rows, answer, now)[id] == MarkOne(delivery[id], rows[i], answer, now)
  {
    if rows != [] {
      var first := rows[0].eventId;
      var next := if first in delivery
                  then delivery[first := MarkOne(delivery[first], rows[0], answer, now)]
                  else delivery;
      MarkAllAt(next, rows[1..], answer, now, id);
      assert id in Ids(rows[1..]) ==> id in Ids(rows) by {
        if id in Ids(rows[1..]) {
          var i :| 0 <= i < |rows[1..]| && rows[1..][i].eventId == id;
          assert rows[i + 1].eventId == id;
        }
      }
      if first == id {
        assert id !in Ids(rows[1..]);
        assert rows[0].eventId in Ids(rows);
      }
      forall i | 0 <= i < |rows| && rows[i].eventId == id
        ensures MarkAll(delivery, rows, answer, now)[id] == MarkOne(delivery[id], rows[i], answer, now)
      {
        if i > 0 {
          assert rows[1..][i - 1] == rows[i];
        }
      }
    }
  }

  class Outbox {
    var events: map<string, Evidence>
    var delivery: map<string, Delivery>

    ghost function Contents(): Box
      reads this
    {
      Box(events, delivery)
    }

    constructor ()
      ensures Contents() == Box(map[], map[])
    {
      events := map[];
      delivery := map[];
    }

    // Runs inside the caller's business transaction and never commits.
    method Enqueue(event: Event, now: Instant) returns (r: Result<string, EnqueueError>)
      modifies this
      ensures r == match Enqueued(old(Contents()), event, now)
                   case Ok(_) => Ok(event.eventId)
                   case Err(error) => Err(error)
      ensures Contents() == match Enqueued(old(Contents()), event, now)
                            case Ok(box) => box
                            case Err(_) => old(Contents())
    {
      if !ValidEvent(event, now) {
        return Err(InvalidEvent);
      }
      if event.eventId in events || event.eventId in delivery {
        return Err(DuplicateId);
      }
      events := events[event.eventId := Evidence(event, Sha256(event), now)];
      delivery := delivery[event.eventId := NEVER_TRIED];
      return Ok(event.eventId);
    }

    // The second transaction of publish_once: settle every row of the batch.
    method Mark(rows: seq<Claim>, answer: Answer, now: Instant)
      modifies this`delivery
      ensures Contents() == old(Contents()).(delivery := MarkAll(old(delivery), rows, answer, now))
    {
      for i := 0 to |rows|
        invariant MarkAll(delivery, rows[i..], answer, now) == MarkAll(old(delivery), rows, answer, now)
      {
        var id := rows[i].eventId;
        assert rows[i..][0] == rows[i] && rows[i..][1..] == rows[i + 1..];
        if id in delivery {
          delivery := delivery[id := MarkOne(delivery[id], rows[i], answer, now)];
        }
      }
    }
  }
}
