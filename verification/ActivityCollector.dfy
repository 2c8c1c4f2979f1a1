/** The central, batch-atomic and idempotent activity collector
    (backend/app/routers/activity.py). */
module ActivityCollector {
  import opened Options
  import opened ActivityContract
  import opened JsonText

  const MAX_BODY_BYTES: int := 256_000
  const RESERVED_SLUG := "mmos"

  // A row of service_activity. The columns copied out of the payload are left to the payload.
  datatype Row = Row(service: string, eventId: string, payload: Event, digest: Digest)

  datatype Outcome = Reserved | TooLarge | Invalid | Conflict | Acknowledged(ids: seq<string>)

  datatype Collected = Collected(rows: seq<Row>, outcome: Outcome)

  function WireBytes(events: seq<Event>, enc: Encoder): (n: nat) {
    if events == [] then 0 else EventBytes(events[0], enc) + WireBytes(events[1..], enc)
  }

  // {"events":[e1,e2,...]} as a publisher's JSON encoder writes it.
  function BodyBytes(events: seq<Event>, enc: Encoder): nat {
    FrameBytes(1, 6, enc) + 2 + WireBytes(events, enc) + JoinBytes(|events|, enc)
  }

  function Find(rows: seq<Row>, service: string, id: string): (r: Option<Row>)
    ensures r.Some? ==> r.value in rows && r.value.service == service && r.value.eventId == id
    ensures r.None? ==> forall i | 0 <= i < |rows| :: !(rows[i].service == service && rows[i].eventId == id)
  {
    if rows == [] then None
    else if rows[0].service == service && rows[0].eventId == id then Some(rows[0])
    else Find(rows[1..], service, id)
  }

  predicate AcceptableBatch(service: string, events: seq<Event>, now: Instant) {
    && 1 <= |events| <= BATCH_SIZE
    && forall i | 0 <= i < |events| :: ValidEvent(events[i], now) && events[i].service == service
  }

  // The insertion loop from one event on: None is the rollback.
  function StoreAll(rows: seq<Row>, service: string, events: seq<Event>): Option<seq<Row>>
    decreases |events|
  {
    if events == [] then Some(rows)
    else
      var e := events[0];
      match Find(rows, service, e.eventId)
      case Some(r) => if r.digest != Sha256(e) then None else StoreAll(rows, service, events[1..])
      case None => StoreAll(rows + [Row(service, e.eventId, e, Sha256(e))], service, events[1..])
  }

  function EventIds(events: seq<Event>): (ids: seq<string>)
    ensures |ids| == |events|
    ensures forall i | 0 <= i < |ids| :: ids[i] == events[i].eventId
  {
    seq(|events|, i requires 0 <= i < |events| => events[i].eventId)
  }

  // The whole handler as one transaction; `length` is the size of the request's body.
  function Collect(rows: seq<Row>, service: string, events: seq<Event>, length: nat, now: Instant): Collected {
    if service == RESERVED_SLUG then Collected(rows, Reserved)
    else if length > MAX_BODY_BYTES then Collected(rows, TooLarge)
    else if !AcceptableBatch(service, events, now) then Collected(rows, Invalid)
    else match StoreAll(rows, service, events)
         case None => Collected(rows, Conflict)
         case Some(stored) => Collected(stored, Acknowledged(EventIds(events)))
  }

  // ---------------------------------------------------------------- properties

  ghost predicate UniqueKeys(rows: seq<Row>) {
    forall i, j | 0 <= i < j < |rows| :: !(rows[i].service == rows[j].service && rows[i].eventId == rows[j].eventId)
  }

  ghost predicate FaithfulRows(rows: seq<Row>) {
    forall i | 0 <= i < |rows| ::
      rows[i].digest == Sha256(rows[i].payload) && rows[i].payload.eventId == rows[i].eventId
  }

  ghost predicate Stored(rows: seq<Row>, service: string, e: Event) {
    exists i :: 0 <= i < |rows| && rows[i] == Row(service, e.eventId, e, Sha256(e))
  }

  // Nothing the batch says contradicts what is stored or what the batch itself said before.
  ghost predicate Consistent(rows: seq<Row>, service: string, events: seq<Event>) {
    && (forall i, k | 0 <= i < |rows| && 0 <= k < |events| ::
          rows[i].service == service && rows[i].eventId == events[k].eventId ==> rows[i].digest == Sha256(events[k]))
    && (forall k, l | 0 <= k < l < |events| :: events[k].eventId == events[l].eventId ==> events[k] == events[l])
  }

  // One event: storing it keeps the rest of the batch consistent exactly when it was before.
  lemma ConsistentStep(rows: seq<Row>, service: string, events: seq<Event>)
    requires events != [] && FaithfulRows(rows)
    ensures var e := events[0];
            match Find(rows, service, e.eventId)
            case Some(r) => r.digest == Sha256(e) && UniqueKeys(rows) ==>
              (Consistent(rows, service, events) <==> Consistent(rows, service, events[1..]))
            case None =>
              (Consistent(rows, service, events) <==>
               Consistent(rows + [Row(service, e.eventId, e, Sha256(e))], service, events[1..]))
  {
    var e := events[0];
    var rest := events[1..];
    assert forall k | 0 <= k < |rest| :: rest[k] == events[k + 1];
    assert forall k | 1 <= k < |events| :: events[k] == rest[k - 1];
    match Find(rows, service, e.eventId)
    case Some(r) =>
      if r.digest == Sha256(e) && UniqueKeys(rows) {
        var at :| 0 <= at < |rows| && rows[at] == r;
        if Consistent(rows, service, rest) {
          forall k, l | 0 <= k < l < |events| && events[k].eventId == events[l].eventId
            ensures events[k] == events[l]
          {
            if k == 0 {
              assert rows[at].digest == Sha256(rest[l - 1]);
            } else {
              assert rest[k - 1] == rest[l - 1];
            }
          }
        }
      }
    case None =>
      var more := rows + [Row(service, e.eventId, e, Sha256(e))];
      if Consistent(more, service, rest) {
        forall k, l | 0 <= k < l < |events| && events[k].eventId == events[l].eventId
          ensures events[k] == events[l]
        {
          if k == 0 {
            assert more[|rows|].digest == Sha256(rest[l - 1]);
          } else {
            assert rest[k - 1] == rest[l - 1];
          }
        }
        forall i, k | 0 <= i < |rows| && 0 <= k < |events| && rows[i].service == service
          && rows[i].eventId == events[k].eventId
          ensures rows[i].digest == Sha256(events[k])
        {
          assert more[i] == rows[i];
        }
      }
      if Consistent(rows, service, events) {
        forall i, k | 0 <= i < |more| && 0 <= k < |rest| && more[i].service == service
          && more[i].eventId == rest[k].eventId
          ensures more[i].digest == Sha256(rest[k])
        {
          if i == |rows| {
            assert events[0] == events[k + 1];
          }
        }
      }
  }

  // The loop succeeds exactly on consistent batches. It then only appends, keeps keys unique, and
  // leaves every event of the batch stored under its own digest; whatever it adds is of the batch.
  lemma {:induction false} StoreAllMeaning(rows: seq<Row>, service: string, events: seq<Event>)
    requires UniqueKeys(rows) && FaithfulRows(rows)
    ensures StoreAll(rows, service, events).Some? <==> Consistent(rows, service, events)
    ensures StoreAll(rows, service, events).Some? ==>
              var stored := StoreAll(rows, service, events).value;
              && rows <= stored
              && UniqueKeys(stored) && FaithfulRows(stored)
              && (forall k | 0 <= k < |events| :: Stored(stored, service, events[k]))
              && (forall i | |rows| <= i < |stored| :: stored[i].service == service && stored[i].payload in events)
    decreases |events|
  {
    if events != [] {
      var e := events[0];
      ConsistentStep(rows, service, events);
      match Find(rows, service, e.eventId)
      case Some(r) =>
        var at :| 0 <= at < |rows| && rows[at] == r;
        if r.digest == Sha256(e) {
          StoreAllMeaning(rows, service, events[1..]);
          if StoreAll(rows, service, events).Some? {
            var stored := StoreAll(rows, service, events).value;
            assert stored[at] == Row(service, e.eventId, e, Sha256(e));
            StoredTail(stored, service, events);
          }
        }
      case None =>
        var more := rows + [Row(service, e.eventId, e, Sha256(e))];
        StoreAllMeaning(more, service, events[1..]);
        if StoreAll(rows, service, events).Some? {
          var stored := StoreAll(rows, service, events).value;
          assert more[|rows|] == Row(service, e.eventId, e, Sha256(e));
          assert stored[|rows|] == more[|rows|];
          StoredTail(stored, service, events);
        }
    }
  }

  lemma StoredTail(stored: seq<Row>, service: string, events: seq<Event>)
    requires events != [] && Stored(stored, service, events[0])
    requires forall k | 0 <= k < |events[1..]| :: Stored(stored, service, events[1..][k])
    ensures forall k | 0 <= k < |events| :: Stored(stored, service, events[k])
  {
    forall k | 0 <= k < |events|
      ensures Stored(stored, service, events[k])
    {
      if k > 0 { assert events[1..][k - 1] == events[k]; }
    }
  }

  // A second delivery of an acknowledged batch, at any later time, is acknowledged again with the
  // same ids and stores nothing.
  lemma {:induction false} RedeliveryIsIdempotent(rows: seq<Row>, service: string, events: seq<Event>, length: nat,
      now: Instant, later: Instant)
    requires UniqueKeys(rows) && FaithfulRows(rows) && now <= later
    requires Collect(rows, service, events, length, now).outcome.Acknowledged?
    ensures Collect(Collect(rows, service, events, length, now).rows, service, events, length, later)
         == Collected(Collect(rows, service, events, length, now).rows, Acknowledged(EventIds(events)))
  {
    hide ValidEvent, AcceptableBatch, Consistent, StoreAll, Find;
    StillAcceptable(service, events, now, later);
    StoreAllMeaning(rows, service, events);
    StoredStays(StoreAll(rows, service, events).value, service, events);
  }

  lemma StillAcceptable(service: string, events: seq<Event>, now: Instant, later: Instant)
    requires now <= later && AcceptableBatch(service, events, now)
    ensures AcceptableBatch(service, events, later)
  {}

  lemma {:induction false} StoredStays(rows: seq<Row>, service: string, events: seq<Event>)
    requires UniqueKeys(rows)
    requires forall k | 0 <= k < |events| :: Stored(rows, service, events[k])
    ensures StoreAll(rows, service, events) == Some(rows)
    decreases |events|
  {
    if events != [] {
      var e := events[0];
      var i :| 0 <= i < |rows| && rows[i] == Row(service, e.eventId, e, Sha256(e));
      var r := Find(rows, service, e.eventId).value;
      var at :| 0 <= at < |rows| && rows[at] == r;
      assert at == i;
      StoredStays(rows, service, events[1..]);
    }
  }

  // Whatever is sent next, by whomever and however it is answered, every stored row keeps its place,
  // payload and digest.
  lemma RowsStay(rows: seq<Row>, service: string, events: seq<Event>, length: nat, now: Instant)
    requires UniqueKeys(rows) && FaithfulRows(rows)
    ensures rows <= Collect(rows, service, events, length, now).rows
    ensures FaithfulRows(Collect(rows, service, events, length, now).rows)
        && UniqueKeys(Collect(rows, service, events, length, now).rows)
  {
    hide ValidEvent, UniqueKeys, FaithfulRows, Stored, Consistent;
    StoreAllMeaning(rows, service, events);
  }

  class Collector {
    var rows: seq<Row>

    constructor ()
      ensures rows == []
    {
      rows := [];
    }

    method Receive(service: string, events: seq<Event>, length: nat, now: Instant) returns (outcome: Outcome)
      modifies this
      ensures Collected(rows, outcome) == Collect(old(rows), service, events, length, now)
    {
      hide ValidEvent;
      if service == RESERVED_SLUG {
        return Reserved;
      }
      if length > MAX_BODY_BYTES {
        return TooLarge;
      }
      if !AcceptableBatch(service, events, now) {
        return Invalid;
      }
      var before := rows;
      var ack := [];
      for i := 0 to |events|
        invariant StoreAll(rows, service, events[i..]) == StoreAll(old(rows), service, events)
        invariant ack == EventIds(events)[..i]
        invariant before == old(rows)
      {
        var e := events[i];
        assert events[i..][0] == e && events[i..][1..] == events[i + 1..];
        var existing := Find(rows, service, e.eventId);
        if existing.Some? {
          if existing.value.digest != Sha256(e) {
            rows := before;  // rollback
            return Conflict;
          }
        } else {
          rows := rows + [Row(service, e.eventId, e, Sha256(e))];
        }
        ack := ack + [e.eventId];
      }
      assert ack == EventIds(events);
      return Acknowledged(ack);
    }
  }
}
