/** What the collector accepts, and what any sequence of requests, honest or not, leaves in the central
    table (backend/app/routers/activity.py:25-77, backend/app/activity_contract.py:34-98). */
module CollectorRuns {
  import opened Options
  import opened ActivityContract
  import opened ActivityCollector
  import opened JsonText
  import opened Uuids

  // ---------------------------------------------------------------- one request

  // Some event is of another service or breaks the contract.
  ghost predicate HasBadEvent(service: string, events: seq<Event>, now: Instant) {
    exists i :: 0 <= i < |events| && (events[i].service != service || !ValidEvent(events[i], now))
  }

  // Each answer is given in exactly one case, tried in this order: the reserved source, a body over
  // 256 000 bytes, a batch that is empty, over twenty events or has a bad one, and one that contradicts
  // what is held or itself. What is left is acknowledged, event by event; any other answer stores nothing.
  lemma AnswersAreExact(rows: seq<Row>, service: string, events: seq<Event>, length: nat, now: Instant)
    requires UniqueKeys(rows) && FaithfulRows(rows)
    ensures var r := Collect(rows, service, events, length, now);
            var reserved, large := service == "mmos", length > 256_000;
            var bad := |events| == 0 || |events| > 20 || HasBadEvent(service, events, now);
            && (r.outcome == Reserved <==> reserved)
            && (r.outcome == TooLarge <==> !reserved && large)
            && (r.outcome == Invalid <==> !reserved && !large && bad)
            && (r.outcome == Conflict <==> !reserved && !large && !bad && !Consistent(rows, service, events))
            && (r.outcome.Acknowledged? <==> !reserved && !large && !bad && Consistent(rows, service, events))
            && (r.outcome.Acknowledged? ==> r.outcome.ids == EventIds(events))
            && (!r.outcome.Acknowledged? ==> r.rows == rows)
  {
    hide ValidEvent, Consistent, UniqueKeys, FaithfulRows, StoreAll;
    StoreAllMeaning(rows, service, events);
  }

  // ---------------------------------------------------------------- any requests

  // A request as it reached the collector: who posted it is who its key belongs to.
  datatype Post = Post(service: string, events: seq<Event>, length: nat, at: Instant)

  function Table(posts: seq<Post>): seq<Row> {
    if posts == [] then []
    else
      var p := posts[|posts| - 1];
      Collect(Table(posts[..|posts| - 1]), p.service, p.events, p.length, p.at).rows
  }

  // The answer request `k` got.
  predicate WasAcknowledged(posts: seq<Post>, k: int)
    requires 0 <= k < |posts|
  {
    var p := posts[k];
    Collect(Table(posts[..k]), p.service, p.events, p.length, p.at).outcome.Acknowledged?
  }

  // `row` is an event of an acknowledged request, posted by the service it is filed under, of that
  // service, and valid when it arrived.
  ghost predicate Accounted(posts: seq<Post>, row: Row) {
    exists k :: && 0 <= k < |posts| && WasAcknowledged(posts, k)
                && row.payload in posts[k].events
                && row == Row(posts[k].service, row.payload.eventId, row.payload, Sha256(row.payload))
                && row.payload.service == row.service
                && ValidEvent(row.payload, posts[k].at)
  }

  lemma StillAcknowledged(posts: seq<Post>, k: int)
    requires 0 <= k < |posts| - 1
    ensures WasAcknowledged(posts, k) <==> WasAcknowledged(posts[..|posts| - 1], k)
  {
    assert posts[..|posts| - 1][..k] == posts[..k];
  }

  lemma StillAccounted(posts: seq<Post>, row: Row)
    requires posts != [] && Accounted(posts[..|posts| - 1], row)
    ensures Accounted(posts, row)
  {
    var front := posts[..|posts| - 1];
    hide WasAcknowledged, ValidEvent;
    var k :| && 0 <= k < |front| && WasAcknowledged(front, k) && row.payload in front[k].events
             && row == Row(front[k].service, row.payload.eventId, row.payload, Sha256(row.payload))
             && row.payload.service == row.service && ValidEvent(row.payload, front[k].at);
    StillAcknowledged(posts, k);
    assert posts[k] == front[k];
  }

  // One request stores its own events or nothing.
  lemma RequestStores(rows: seq<Row>, p: Post)
    requires UniqueKeys(rows) && FaithfulRows(rows)
    ensures var r := Collect(rows, p.service, p.events, p.length, p.at);
            && rows <= r.rows && UniqueKeys(r.rows) && FaithfulRows(r.rows)
            && (r.outcome.Acknowledged? ==> forall e | e in p.events :: Stored(r.rows, p.service, e))
            && (!r.outcome.Acknowledged? ==> r.rows == rows)
            && (forall i | |rows| <= i < |r.rows| ::
                  && r.rows[i].service == p.service && r.rows[i].payload in p.events
                  && r.rows[i].payload.service == p.service && ValidEvent(r.rows[i].payload, p.at))
  {
    hide ValidEvent, UniqueKeys, FaithfulRows, Stored, Consistent, StoreAll;
    StoreAllMeaning(rows, p.service, p.events);
    AnswersAreExact(rows, p.service, p.events, p.length, p.at);
  }

  lemma {:induction false} TableIsSound(posts: seq<Post>)
    ensures UniqueKeys(Table(posts)) && FaithfulRows(Table(posts))
  {
    hide UniqueKeys, FaithfulRows, Collect;
    if posts == [] {
      NoRows();
    } else {
      TableIsSound(posts[..|posts| - 1]);
      RequestStores(Table(posts[..|posts| - 1]), posts[|posts| - 1]);
    }
  }

  lemma NoRows()
    ensures UniqueKeys([]) && FaithfulRows([])
  {}

  lemma {:induction false} RowsAreAccounted(posts: seq<Post>, i: int)
    requires 0 <= i < |Table(posts)|
    ensures Accounted(posts, Table(posts)[i])
  {
    var n := |posts| - 1;
    var front, p := posts[..n], posts[n];
    var rows := Table(front);
    TableIsSound(front);
    TableIsSound(posts);
    var row := Table(posts)[i];
    assert row.digest == Sha256(row.payload) && row.payload.eventId == row.eventId;
    hide UniqueKeys, FaithfulRows, Collect, ValidEvent, Stored;
    RequestStores(rows, p);
    if i < |rows| {
      RowsAreAccounted(front, i);
      hide Accounted;
      StillAccounted(posts, row);
    } else {
      assert WasAcknowledged(posts, n);
    }
  }

  lemma {:induction false} AcknowledgedIsStored(posts: seq<Post>, k: int, e: Event)
    requires 0 <= k < |posts| && WasAcknowledged(posts, k) && e in posts[k].events
    ensures Stored(Table(posts), posts[k].service, e)
  {
    hide UniqueKeys, FaithfulRows, Collect, ValidEvent;
    var n := |posts| - 1;
    var rows := Table(posts[..n]);
    TableIsSound(posts[..n]);
    RequestStores(rows, posts[n]);
    if k < n {
      StillAcknowledged(posts, k);
      AcknowledgedIsStored(posts[..n], k, e);
      var i :| 0 <= i < |rows| && rows[i] == Row(posts[k].service, e.eventId, e, Sha256(e));
      assert Table(posts)[i] == rows[i];
    }
  }

  // Whatever is posted by whomever, in whatever order: the central table holds exactly the events of
  // the acknowledged requests, no (service, event id) twice, each filed under the service that posted it
  // and that it names, and each valid when it arrived.
  lemma TableHoldsTheAcknowledged(posts: seq<Post>)
    ensures UniqueKeys(Table(posts))
    ensures forall row | row in Table(posts) :: Accounted(posts, row)
    ensures forall k, e | 0 <= k < |posts| && WasAcknowledged(posts, k) && e in posts[k].events ::
              Row(posts[k].service, e.eventId, e, Sha256(e)) in Table(posts)
  {
    hide Collect, ValidEvent, UniqueKeys, Accounted, WasAcknowledged;
    TableIsSound(posts);
    forall row | row in Table(posts) ensures Accounted(posts, row) {
      var i :| 0 <= i < |Table(posts)| && Table(posts)[i] == row;
      RowsAreAccounted(posts, i);
    }
    forall k, e | 0 <= k < |posts| && WasAcknowledged(posts, k) && e in posts[k].events
      ensures Row(posts[k].service, e.eventId, e, Sha256(e)) in Table(posts)
    {
      AcknowledgedIsStored(posts, k, e);
    }
  }

  // ---------------------------------------------------------------- what evidence can say

  function Given(text: Option<string>): seq<string> {
    if text.Some? then [text.value] else []
  }

  // Every text is there, no longer than that, and without control characters.
  predicate Tame(texts: seq<string>, limit: nat) {
    forall x | x in texts :: x != "" && |x| <= limit && forall c | c in x :: c >= ' '
  }

  predicate Slug(text: string, limit: nat, more: set<char>) {
    text != "" && |text| <= limit && forall c | c in text :: 'a' <= c <= 'z' || '0' <= c <= '9' || c in more
  }

  predicate Plain(v: Scalar) {
    v != NotScalar && (v.Text? ==> v.text == "" || Tame([v.text], 180))
  }

  const LISTED: seq<string> :=
    ["status", "priority", "is_active", "is_private", "assignee_sub", "approver_sub", "decision", "version", "mode",
     "role", "permissions"]

  // All an event can say: every text is tame; at most a hundred fields are named; only the eleven listed
  // ones carry values, plain scalars; the time has a zone and is at most five minutes ahead; and all of
  // it fits into 12 000 bytes.
  ghost predicate Sayable(e: Event, now: Instant) {
    && e.schemaVersion == 1 && UuidText(e.eventId)
    && Slug(e.service, 64, {'_', '-'}) && Slug(e.action, 96, {'_', '-', '.'})
    && e.outcome in {"success", "denied", "failed"}
    && e.actor.kind in {"human", "service", "system", "legacy_unknown"}
    && Tame([e.actor.subject, e.target.id] + Given(e.actor.name) + Given(e.department), 180)
    && Tame(Given(e.requestId), 128)
    && Tame([e.target.kind, e.occurredAt.text] + e.changedFields, 64)
    && Tame(Given(e.actor.employeeCode), 32)
    && |e.changedFields| <= 100
    && (forall k | k in e.changes :: k in LISTED && Plain(e.changes[k].before) && Plain(e.changes[k].after))
    && e.occurredAt.reading.Aware? && e.occurredAt.reading.at <= now + 5 * 60 * 1_000_000
    && EventBytes(e, Compact) <= 12_000
  }

  lemma OneTame(text: string, limit: nat)
    ensures Tame([text], limit) <==> Bounded(text, limit)
  {
    assert forall i | 0 <= i < |text| :: text[i] in text;
    assert text in [text];
  }

  lemma JoinTame(a: seq<string>, b: seq<string>, limit: nat)
    ensures Tame(a + b, limit) <==> Tame(a, limit) && Tame(b, limit)
  {
    assert forall x :: x in a + b <==> x in a || x in b;
  }

  lemma GivenTame(text: Option<string>, limit: nat)
    ensures Tame(Given(text), limit) <==> BoundedOptional(text, limit)
  {
    if text.Some? {
      OneTame(text.value, limit);
    }
  }

  lemma EachTame(texts: seq<string>, limit: nat)
    ensures Tame(texts, limit) <==> forall i | 0 <= i < |texts| :: Bounded(texts[i], limit)
  {
    forall i | 0 <= i < |texts| ensures Tame(texts, limit) ==> Bounded(texts[i], limit) {
      OneTame(texts[i], limit);
      assert texts[i] in texts;
    }
    forall x | x in texts && Bounded(x, limit) ensures Tame([x], limit) {
      OneTame(x, limit);
      assert x in [x];
    }
  }

  lemma TextsMean(e: Event)
    ensures && Bounded(e.target.kind, 64) && Bounded(e.occurredAt.text, 64)
            && (forall i | 0 <= i < |e.changedFields| :: Bounded(e.changedFields[i], 64))
            <==> Tame([e.target.kind, e.occurredAt.text] + e.changedFields, 64)
    ensures && Bounded(e.actor.subject, 180) && Bounded(e.target.id, 180)
            && BoundedOptional(e.actor.name, 180) && BoundedOptional(e.department, 180)
            <==> Tame([e.actor.subject, e.target.id] + Given(e.actor.name) + Given(e.department), 180)
  {
    hide Tame, Bounded, BoundedOptional, Given;
    var first, second := [e.target.kind, e.occurredAt.text], [e.actor.subject, e.target.id];
    EachTame(first, 64);
    assert Tame(first, 64) <==> Bounded(first[0], 64) && Bounded(first[1], 64);
    EachTame(e.changedFields, 64);
    JoinTame(first, e.changedFields, 64);
    EachTame(second, 180);
    assert Tame(second, 180) <==> Bounded(second[0], 180) && Bounded(second[1], 180);
    GivenTame(e.actor.name, 180);
    GivenTame(e.department, 180);
    JoinTame(second, Given(e.actor.name), 180);
    JoinTame(second + Given(e.actor.name), Given(e.department), 180);
  }

  lemma SlugsMean(service: string, action: string)
    ensures ValidService(service) <==> Slug(service, 64, {'_', '-'})
    ensures ValidAction(action) <==> Slug(action, 96, {'_', '-', '.'})
  {
    assert forall i | 0 <= i < |service| :: service[i] in service;
    assert forall i | 0 <= i < |action| :: action[i] in action;
  }

  lemma PlainMeans(v: Scalar)
    ensures ValidScalar(v) <==> Plain(v)
  {
    if v.Text? && v.text != "" {
      OneTame(v.text, 180);
    }
  }

  lemma ChangesMean(changes: map<string, Change>)
    ensures && changes.Keys <= SAFE_VALUES
            && (forall k | k in changes :: ValidScalar(changes[k].before) && ValidScalar(changes[k].after))
            <==> forall k | k in changes :: k in LISTED && Plain(changes[k].before) && Plain(changes[k].after)
  {
    hide ValidScalar, Plain;
    assert LISTED == SAFE_KEYS;
    forall k | k in changes
      ensures ValidScalar(changes[k].before) && ValidScalar(changes[k].after)
          <==> Plain(changes[k].before) && Plain(changes[k].after)
    {
      PlainMeans(changes[k].before);
      PlainMeans(changes[k].after);
    }
  }

  // The contract lets through exactly the events that say no more than that.
  lemma ContractMeans(e: Event, now: Instant)
    ensures ValidEvent(e, now) <==> Sayable(e, now)
  {
    hide EventBytes, UuidText, Bounded, BoundedOptional, Tame, ValidService, ValidAction, Slug, ValidScalar, Plain;
    TextsMean(e);
    SlugsMean(e.service, e.action);
    ChangesMean(e.changes);
    GivenTame(e.requestId, 128);
    GivenTame(e.actor.employeeCode, 32);
  }
}
