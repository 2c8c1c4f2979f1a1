/** The shared fixed-window limiter: its three SQL statements, the sequential call, and any number of
    workers interleaving them (backend/app/ratelimit.py). */
module RateLimit {
  import opened Arithmetic

  // One row per (bucket, window index).
  datatype Key = Key(bucket: string, window: int)

  type Counts = map<Key, int>

  function CountOf(counts: Counts, key: Key): int {
    if key in counts then counts[key] else 0
  }

  // UPDATE ... SET count = count + 1 WHERE key AND count < limit: did it match a row?
  predicate BumpMatches(counts: Counts, key: Key, limit: int) {
    key in counts && counts[key] < limit
  }

  function Bumped(counts: Counts, key: Key, limit: int): Counts {
    if BumpMatches(counts, key, limit) then counts[key := counts[key] + 1] else counts
  }

  // DELETE ... WHERE window_key < floor
  function Purged(counts: Counts, floor: int): Counts {
    map key | key in counts && key.window >= floor :: counts[key]
  }

  class Table {
    var counts: Counts

    constructor ()
      ensures counts == map[]
    {
      counts := map[];
    }

    method Bump(key: Key, limit: int) returns (rowcount: int)
      modifies this
      ensures counts == Bumped(old(counts), key, limit)
      ensures rowcount == if BumpMatches(old(counts), key, limit) then 1 else 0
    {
      if key in counts && counts[key] < limit {
        counts := counts[key := counts[key] + 1];
        return 1;
      }
      return 0;
    }

    // False is the unique constraint refusing the row.
    method InsertFirst(key: Key) returns (inserted: bool)
      modifies this
      ensures inserted <==> key !in old(counts)
      ensures counts == if key in old(counts) then old(counts) else old(counts)[key := 1]
    {
      if key in counts {
        return false;
      }
      counts := counts[key := 1];
      return true;
    }

    // One worker alone: the hit is accepted iff the window's row is missing or under the limit; a
    // refused hit writes nothing.
    method Check(bucket: string, limit: int, windowSize: int, now: int) returns (limited: bool)
      requires windowSize >= 1
      modifies this
      ensures var key := Key(bucket, now / windowSize);
        && (limited <==> key in old(counts) && old(counts)[key] >= limit)
        && counts == if limited then old(counts) else old(counts)[key := CountOf(old(counts), key) + 1]
    {
      var key := Key(bucket, now / windowSize);
      var rowcount := Bump(key, limit);
      if rowcount > 0 {
        return false;
      }
      var inserted := InsertFirst(key);
      if inserted {
        return false;
      }
      rowcount := Bump(key, limit);
      return !(rowcount > 0);
    }

    method Purge(now: int, windowSize: int, keep: int) returns (removed: int)
      requires windowSize >= 1
      modifies this
      ensures counts == Purged(old(counts), now / windowSize - keep)
      ensures removed == |old(counts)| - |counts|
    {
      var floor := now / windowSize - keep;
      var next := map key | key in counts && key.window >= floor :: counts[key];
      removed := |counts| - |next|;
      counts := next;
    }
  }

  // ---------------------------------------------------------------- many workers

  datatype Phase = Update | Insert | Retry

  // A call in flight; `at` is the clock it read on entry, which fixes its window.
  datatype Call = Call(bucket: string, at: int, phase: Phase)

  // One answer given to a caller, in the order the deciding statements ran.
  datatype Decision = Decision(bucket: string, at: int, accepted: bool)

  datatype World = World(
    windowSize: int, keep: int, limits: map<string, int>,
    now: int, counts: Counts, calls: map<nat, Call>, log: seq<Decision>, floor: int)

  datatype Step = Arrive(worker: nat, bucket: string) | Statement(worker: nat) | Purge | Tick(elapsed: nat)

  function Window(w: World, at: int): int
    requires w.windowSize >= 1
  {
    at / w.windowSize
  }

  function CallKey(w: World, c: Call): Key
    requires w.windowSize >= 1
  {
    Key(c.bucket, Window(w, c.at))
  }

  // Accepted hits of one window so far.
  function Tally(log: seq<Decision>, key: Key, windowSize: int): (n: int)
    requires windowSize >= 1
    ensures n >= 0
  {
    if log == [] then 0
    else
      var d := log[|log| - 1];
      Tally(log[..|log| - 1], key, windowSize) +
      if d.accepted && Key(d.bucket, d.at / windowSize) == key then 1 else 0
  }

  function Finish(w: World, worker: nat, counts: Counts, accepted: bool): World
    requires worker in w.calls
  {
    var c := w.calls[worker];
    w.(counts := counts, calls := w.calls - {worker}, log := w.log + [Decision(c.bucket, c.at, accepted)])
  }

  function DoStatement(w: World, worker: nat): World
    requires w.windowSize >= 1
  {
    if !(worker in w.calls && w.calls[worker].bucket in w.limits) then w
    else
      var c := w.calls[worker];
      var key := CallKey(w, c);
      var limit := w.limits[c.bucket];
      match c.phase
      case Update =>
        if BumpMatches(w.counts, key, limit) then Finish(w, worker, Bumped(w.counts, key, limit), true)
        else w.(calls := w.calls[worker := c.(phase := Insert)])
      case Insert =>
        if key !in w.counts then Finish(w, worker, w.counts[key := 1], true)
        else w.(calls := w.calls[worker := c.(phase := Retry)])
      case Retry =>
        Finish(w, worker, Bumped(w.counts, key, limit), BumpMatches(w.counts, key, limit))
  }

  function PurgeFloor(w: World): int
    requires w.windowSize >= 1
  {
    Window(w, w.now) - w.keep
  }

  function DoPurge(w: World): World
    requires w.windowSize >= 1
  {
    var floor := PurgeFloor(w);
    w.(counts := Purged(w.counts, floor), floor := if floor > w.floor then floor else w.floor)
  }

  function Next(w: World, step: Step): (r: World)
    requires w.windowSize >= 1
    ensures r.windowSize == w.windowSize && r.limits == w.limits && w.log <= r.log
  {
    match step
    case Arrive(worker, bucket) =>
      if worker !in w.calls && bucket in w.limits
      then w.(calls := w.calls[worker := Call(bucket, w.now, Update)])
      else w
    case Statement(worker) => DoStatement(w, worker)
    case Purge => DoPurge(w)
    case Tick(elapsed) => w.(now := w.now + elapsed)
  }

  // No call in flight sits in a window the purge removes that has accepted a hit.
  predicate Harmless(w: World)
    requires w.windowSize >= 1
  {
    forall k | k in w.calls :: Window(w, w.calls[k].at) >= PurgeFloor(w) || CallKey(w, w.calls[k]) !in w.counts
  }

  predicate Allowed(w: World, step: Step)
    requires w.windowSize >= 1
  {
    step.Purge? ==> Harmless(w)
  }

  function Run(w: World, steps: seq<Step>): (r: World)
    requires w.windowSize >= 1
    ensures r.windowSize == w.windowSize && r.limits == w.limits
    decreases |steps|
  {
    if steps == [] then w else Run(Next(w, steps[0]), steps[1..])
  }

  predicate AllAllowed(w: World, steps: seq<Step>)
    requires w.windowSize >= 1
    decreases |steps|
  {
    steps != [] ==> Allowed(w, steps[0]) && AllAllowed(Next(w, steps[0]), steps[1..])
  }

  // The sequential limiter the log must look like: accepted iff fewer than the limit were accepted
  // before in that window.
  ghost predicate Linear(log: seq<Decision>, limits: map<string, int>, windowSize: int)
    requires windowSize >= 1
  {
    forall i | 0 <= i < |log| ::
      var d := log[i];
      d.bucket in limits && (d.accepted <==>
        Tally(log[..i], Key(d.bucket, d.at / windowSize), windowSize) < limits[d.bucket])
  }

  ghost predicate Counted(w: World, key: Key)
    requires w.windowSize >= 1
  {
    CountOf(w.counts, key) == Tally(w.log, key, w.windowSize)
  }

  ghost predicate Inv(w: World) {
    && w.windowSize >= 1
    && w.keep >= 0
    && (forall b | b in w.limits :: w.limits[b] >= 1)
    && w.floor <= Window(w, w.now)
    && (forall k | k in w.calls ::
          && w.calls[k].bucket in w.limits
          && Counted(w, CallKey(w, w.calls[k]))
          && (w.calls[k].phase.Retry? ==> CallKey(w, w.calls[k]) in w.counts))
    && (forall key | key in w.counts ::
      key.bucket in w.limits && 1 <= w.counts[key] <= w.limits[key.bucket] && Counted(w, key))
    && (forall key: Key | key.window >= w.floor :: Counted(w, key))
    && (forall key: Key | key.bucket in w.limits :: Tally(w.log, key, w.windowSize) <= w.limits[key.bucket])
    && Linear(w.log, w.limits, w.windowSize)
  }

  ghost predicate Initial(w: World) {
    && w.windowSize >= 1 && w.keep >= 0
    && (forall b | b in w.limits :: w.limits[b] >= 1)
    && w.counts == map[] && w.calls == map[] && w.log == []
    && w.floor <= Window(w, w.now)
  }

  lemma TallyPush(log: seq<Decision>, d: Decision, key: Key, windowSize: int)
    requires windowSize >= 1
    ensures Tally(log + [d], key, windowSize)
         == Tally(log, key, windowSize) + if d.accepted && Key(d.bucket, d.at / windowSize) == key then 1 else 0
  {
    assert (log + [d])[..|log|] == log;
  }

  lemma LinearPush(log: seq<Decision>, d: Decision, limits: map<string, int>, windowSize: int)
    requires windowSize >= 1 && Linear(log, limits, windowSize)
    requires d.bucket in limits
    requires d.accepted <==> Tally(log, Key(d.bucket, d.at / windowSize), windowSize) < limits[d.bucket]
    ensures Linear(log + [d], limits, windowSize)
  {
    forall i | 0 <= i < |log + [d]|
      ensures var e := (log + [d])[i];
        e.bucket in limits &&
        (e.accepted <==> Tally((log + [d])[..i], Key(e.bucket, e.at / windowSize), windowSize) < limits[e.bucket])
    {
      if i < |log| {
        assert (log + [d])[..i] == log[..i];
      } else {
        assert (log + [d])[..i] == log;
      }
    }
  }

  // The deciding statement of a call takes effect atomically as one hit on the sequential limiter;
  // any other statement of it changes no row and answers nobody.
  lemma StatementLinearises(w: World, worker: nat)
    requires Inv(w) && worker in w.calls
    ensures var w' := DoStatement(w, worker);
            var c := w.calls[worker];
            var key := CallKey(w, c);
            var before := Tally(w.log, key, w.windowSize);
            || (w'.log == w.log && w'.counts == w.counts && worker in w'.calls)
            || (&& w'.log == w.log + [Decision(c.bucket, c.at, before < w.limits[c.bucket])]
                && worker !in w'.calls
                && w'.counts == if before < w.limits[c.bucket] then w.counts[key := before + 1] else w.counts)
  {
    assert Counted(w, CallKey(w, w.calls[worker]));
  }

  // A decided hit, seen from every window's tally at once.
  lemma DecisionKeepsTallies(w: World, worker: nat)
    requires Inv(w) && worker in w.calls
    requires DoStatement(w, worker).log != w.log
    ensures var w' := DoStatement(w, worker);
      && (forall k: Key | Counted(w, k) :: Counted(w', k))
      && (forall k: Key | k.bucket in w.limits :: Tally(w'.log, k, w.windowSize) <= w.limits[k.bucket])
      && Linear(w'.log, w.limits, w.windowSize)
  {
    var w' := DoStatement(w, worker);
    var c := w.calls[worker];
    var key := CallKey(w, c);
    StatementLinearises(w, worker);
    var d := Decision(c.bucket, c.at, Tally(w.log, key, w.windowSize) < w.limits[c.bucket]);
    hide DoStatement;
    LinearPush(w.log, d, w.limits, w.windowSize);
    forall k: Key
      ensures Tally(w'.log, k, w.windowSize) == Tally(w.log, k, w.windowSize) + if d.accepted && k == key then 1 else 0
    {
      TallyPush(w.log, d, k, w.windowSize);
    }
  }

  lemma StatementKeepsInv(w: World, worker: nat)
    requires Inv(w)
    ensures Inv(DoStatement(w, worker))
  {
    hide Linear, Tally;
    if worker in w.calls {
      var w' := DoStatement(w, worker);
      StatementLinearises(w, worker);
      if w'.log != w.log {
        DecisionKeepsTallies(w, worker);
      } else {
        assert forall k: Key :: Counted(w', k) <==> Counted(w, k);
      }
    }
  }

  lemma PurgeKeepsInv(w: World)
    requires Inv(w) && Harmless(w)
    ensures Inv(DoPurge(w))
  {
    var w' := DoPurge(w);
    forall k: Key | Counted(w, k) && (k.window >= PurgeFloor(w) || k !in w.counts)
      ensures Counted(w', k)
    {
    }
  }

  lemma StepKeepsInv(w: World, step: Step)
    requires Inv(w) && Allowed(w, step)
    ensures Inv(Next(w, step))
  {
    match step
    case Statement(worker) => StatementKeepsInv(w, worker);
    case Purge => PurgeKeepsInv(w);
    case Arrive(worker, bucket) =>
      assert forall k: Key :: Counted(Next(w, step), k) <==> Counted(w, k);
    case Tick(elapsed) =>
      QuotientMonotone(w.now, w.now + elapsed, w.windowSize);
      assert forall k: Key :: Counted(Next(w, step), k) <==> Counted(w, k);
  }

  // Whatever the interleaving, as long as no purge takes a row a call in flight still needs: the
  // answers are those of the sequential limiter, every row holds exactly the accepted hits of its
  // window, and no window ever accepts more than its limit.
  lemma {:induction false} LimiterLinearises(w: World, steps: seq<Step>)
    requires Inv(w) && AllAllowed(w, steps)
    ensures var r := Run(w, steps);
      && Inv(r)
      && Linear(r.log, w.limits, w.windowSize)
      && (forall key | key in r.counts :: r.counts[key] == Tally(r.log, key, w.windowSize))
      && (forall key: Key | key.bucket in w.limits :: Tally(r.log, key, w.windowSize) <= w.limits[key.bucket])
    decreases |steps|
  {
    if steps != [] {
      StepKeepsInv(w, steps[0]);
      LimiterLinearises(Next(w, steps[0]), steps[1..]);
    } else {
      assert forall key | key in w.counts :: Counted(w, key);
    }
  }

  lemma InitialInv(w: World)
    requires Initial(w)
    ensures Inv(w)
  {
    forall key: Key
      ensures Counted(w, key)
    {
    }
  }

  // ---------------------------------------------------------------- any span of one window length

  predicate InSpan(d: Decision, bucket: string, from: int, length: int) {
    d.accepted && d.bucket == bucket && from <= d.at < from + length
  }

  function HitsInSpan(log: seq<Decision>, bucket: string, from: int, length: int): (n: int) {
    if log == [] then 0
    else HitsInSpan(log[..|log| - 1], bucket, from, length) +
         if InSpan(log[|log| - 1], bucket, from, length) then 1 else 0
  }

  lemma SpanTouchesTwoWindows(at: int, from: int, windowSize: int)
    requires windowSize >= 1 && from <= at < from + windowSize
    ensures at / windowSize == from / windowSize || at / windowSize == from / windowSize + 1
  {
    QuotientMonotone(from, at, windowSize);
    QuotientMonotone(at, from + windowSize, windowSize);
    QuotientStep(from, windowSize);
  }

  lemma {:induction false} SpanWithinTallies(log: seq<Decision>, bucket: string, from: int, windowSize: int)
    requires windowSize >= 1
    ensures HitsInSpan(log, bucket, from, windowSize)
         <= Tally(log, Key(bucket, from / windowSize), windowSize)
           + Tally(log, Key(bucket, from / windowSize + 1), windowSize)
    decreases |log|
  {
    if log != [] {
      var d := log[|log| - 1];
      SpanWithinTallies(log[..|log| - 1], bucket, from, windowSize);
      if InSpan(d, bucket, from, windowSize) {
        SpanTouchesTwoWindows(d.at, from, windowSize);
      }
    }
  }

  // ---------------------------------------------------------------- when a purge is harmless

  // Every call in flight still finds exactly the hits accepted in its window.
  ghost predicate Accurate(w: World)
    requires w.windowSize >= 1
  {
    forall k | k in w.calls :: Counted(w, CallKey(w, w.calls[k]))
  }

  // A purge leaves every call in flight an accurate row exactly when no call sits in a window the
  // purge removes and that has accepted a hit.
  lemma PurgeAccurateIff(w: World)
    requires Inv(w)
    ensures Accurate(DoPurge(w)) <==> Harmless(w)
  {
    forall k | k in w.calls
      ensures Counted(DoPurge(w), CallKey(w, w.calls[k])) <==>
              Window(w, w.calls[k].at) >= PurgeFloor(w) || CallKey(w, w.calls[k]) !in w.counts
    {
      assert Counted(w, CallKey(w, w.calls[k]));
    }
  }

  lemma {:induction false} RunTwo(w: World, first: Step, second: Step, r: World)
    requires w.windowSize >= 1
    requires Next(Next(w, first), second) == r
    ensures Run(w, [first, second]) == r
  {
    hide Next;
    var middle := Next(w, first);
    assert [first, second][1..] == [second];
    assert [second][1..] == [];
    assert Run(middle, [second]) == Run(r, []) == r;
  }

  lemma {:induction false} RunConcat(w: World, s: seq<Step>, t: seq<Step>)
    requires w.windowSize >= 1
    ensures Run(w, s + t) == Run(Run(w, s), t)
    decreases |s|
  {
    if s == [] {
      assert s + t == t;
    } else {
      assert (s + t)[1..] == s[1..] + t;
      RunConcat(Next(w, s[0]), s[1..], t);
    }
  }

  // A worker that stalls past the margin is counted again: limit 1, one hit accepted, three windows
  // pass, the purge runs, and the stalled call is accepted in the same window.
  const STALL_START := World(60, 2, map["pin" := 1], 0, map[], map[], [], 0)

  const STALL_STEPS: seq<Step> :=
    [Arrive(1, "pin"), Arrive(2, "pin")] + [Statement(1), Statement(1)]
      + ([Tick(180), Purge] + [Statement(2), Statement(2)])

  lemma StalledRun()
    ensures Run(STALL_START, STALL_STEPS).log == [Decision("pin", 0, true), Decision("pin", 0, true)]
  {
    hide Tally;
    var w := STALL_START;
    var k := Key("pin", 0);
    var two := w.(calls := map[1 := Call("pin", 0, Update), 2 := Call("pin", 0, Update)]);
    var one := w.(calls := map[2 := Call("pin", 0, Update)], counts := map[k := 1], log := [Decision("pin", 0, true)]);
    var purged := one.(now := 180, counts := map[], floor := 1);
    var end := purged.(calls := map[], counts := map[k := 1],
      log := [Decision("pin", 0, true), Decision("pin", 0, true)]);
    RunTwo(w, Arrive(1, "pin"), Arrive(2, "pin"), two);
    StalledSettle(two, one, purged, end);
    RunConcat(w, [Arrive(1, "pin"), Arrive(2, "pin")], [Statement(1), Statement(1)]);
    RunConcat(one, [Tick(180), Purge], [Statement(2), Statement(2)]);
    RunConcat(w, [Arrive(1, "pin"), Arrive(2, "pin")] + [Statement(1), Statement(1)],
      [Tick(180), Purge] + [Statement(2), Statement(2)]);
  }

  lemma StalledSettle(two: World, one: World, purged: World, end: World)
    requires two == STALL_START.(calls := map[1 := Call("pin", 0, Update), 2 := Call("pin", 0, Update)])
    requires one == STALL_START.(calls := map[2 := Call("pin", 0, Update)], counts := map[Key("pin", 0) := 1],
        log := [Decision("pin", 0, true)])
    requires purged == one.(now := 180, counts := map[], floor := 1)
    requires end == purged.(calls := map[], counts := map[Key("pin", 0) := 1],
        log := [Decision("pin", 0, true), Decision("pin", 0, true)])
    ensures Run(two, [Statement(1), Statement(1)]) == one
    ensures Run(one, [Tick(180), Purge]) == purged
    ensures Run(purged, [Statement(2), Statement(2)]) == end
  {
    hide Run;
    RunTwo(two, Statement(1), Statement(1), one);
    RunTwo(one, Tick(180), Purge, purged);
    RunTwo(purged, Statement(2), Statement(2), end);
  }

  lemma StalledCallBreaksTheLimit()
    ensures Initial(STALL_START)
    ensures Tally(Run(STALL_START, STALL_STEPS).log, Key("pin", 0), 60) == 2 > STALL_START.limits["pin"]
  {
    StalledRun();
    TallyPush([], Decision("pin", 0, true), Key("pin", 0), 60);
    TallyPush([Decision("pin", 0, true)], Decision("pin", 0, true), Key("pin", 0), 60);
    assert [Decision("pin", 0, true)] + [Decision("pin", 0, true)]
      == [Decision("pin", 0, true), Decision("pin", 0, true)];
    assert [] + [Decision("pin", 0, true)] == [Decision("pin", 0, true)];
  }
}
