/** What one purge can do to the limiter's answers: from every reachable state, exactly when some way
    the calls in flight go on breaks the limit, and exactly when one is answered wrongly
    (backend/app/ratelimit.py:55-111). */
module RateLimitPurge {
  import opened Arithmetic
  import opened RateLimit

  ghost predicate NoPurge(steps: seq<Step>) {
    forall i | 0 <= i < |steps| :: !steps[i].Purge?
  }

  // Some window has accepted more than its limit.
  ghost predicate Overrun(w: World)
    requires w.windowSize >= 1
  {
    exists key: Key :: key.bucket in w.limits && Tally(w.log, key, w.windowSize) > w.limits[key.bucket]
  }

  function InFlight(w: World, key: Key): set<nat>
    requires w.windowSize >= 1
  {
    set k | k in w.calls && CallKey(w, w.calls[k]) == key
  }

  // Somebody in flight can still create the window's row: a call on its last statement cannot.
  predicate CanInsert(w: World, key: Key)
    requires w.windowSize >= 1
  {
    exists k :: k in w.calls && CallKey(w, w.calls[k]) == key && !w.calls[k].phase.Retry?
  }

  predicate CanMiss(w: World, key: Key)
    requires w.windowSize >= 1
  {
    exists k :: k in w.calls && CallKey(w, w.calls[k]) == key && w.calls[k].phase.Retry?
  }

  // A removed row still has calls in flight that together pass the limit, one of which can restart it.
  ghost predicate Overdrawn(w: World, key: Key)
    requires w.windowSize >= 1
  {
    && key in w.counts && key.window < PurgeFloor(w) && key.bucket in w.limits && CanInsert(w, key)
    && Tally(w.log, key, w.windowSize) + |InFlight(w, key)| > w.limits[key.bucket]
  }

  // A removed row, under the limit, is still needed by a call on its last statement.
  ghost predicate Stranded(w: World, key: Key)
    requires w.windowSize >= 1
  {
    && key in w.counts && key.window < PurgeFloor(w) && key.bucket in w.limits && CanMiss(w, key)
    && Tally(w.log, key, w.windowSize) < w.limits[key.bucket]
  }

  // What every run keeps about the calls themselves.
  ghost predicate Legal(w: World) {
    && w.windowSize >= 1 && w.keep >= 0
    && (forall b | b in w.limits :: w.limits[b] >= 1)
    && (forall k | k in w.calls :: w.calls[k].bucket in w.limits)
    && (forall key | key in w.counts :: w.counts[key] >= 1)
  }

  // Every call on this window will be answered as the sequential limiter would: its row counts every
  // hit; or it is past and full, and nobody can restart it; or it is past, all its calls fit, and its
  // row, if it has one, leaves them room. A call on its last statement always finds a row.
  ghost predicate Judged(w: World, key: Key)
    requires w.windowSize >= 1 && key.bucket in w.limits
  {
    var hits, limit := Tally(w.log, key, w.windowSize), w.limits[key.bucket];
    && hits <= limit
    && (|| (CountOf(w.counts, key) == hits && (CanMiss(w, key) ==> key in w.counts))
        || (&& key.window < Window(w, w.now)
            && (|| (hits == limit && key !in w.counts && !CanInsert(w, key))
                || (hits + |InFlight(w, key)| <= limit && CountOf(w.counts, key) <= hits
                  && (CanMiss(w, key) ==> key in w.counts)))))
  }

  // The log so far is the sequential limiter's, and every window is in order.
  ghost predicate Sequential(w: World) {
    && Legal(w) && Linear(w.log, w.limits, w.windowSize)
    && forall key: Key | key.bucket in w.limits :: Judged(w, key)
  }

  // ---------------------------------------------------------------- one statement, one window

  // How a statement moves one window's row, tally and callers.
  lemma StatementEffect(w: World, worker: nat, key: Key)
    requires Legal(w) && worker in w.calls && CallKey(w, w.calls[worker]) == key
    ensures var (w', c) := (DoStatement(w, worker), w.calls[worker]);
            var (before, after) := (Tally(w.log, key, w.windowSize), Tally(w'.log, key, w.windowSize));
            var limit := w.limits[c.bucket];
            && Legal(w')
            && (if key in w.counts && w.counts[key] < limit && !c.phase.Insert? then
                  w'.log == w.log + [Decision(c.bucket, c.at, true)] && w'.counts == w.counts[key := w.counts[key] + 1]
                  && w'.calls == w.calls - {worker} && after == before + 1
                else if c.phase.Update? then w' == w.(calls := w.calls[worker := c.(phase := Insert)])
                  && after == before
                else if c.phase.Insert? && key !in w.counts then
                  w'.log == w.log + [Decision(c.bucket, c.at, true)] && w'.counts == w.counts[key := 1]
                  && w'.calls == w.calls - {worker} && after == before + 1
                else if c.phase.Insert? then w' == w.(calls := w.calls[worker := c.(phase := Retry)]) && after == before
                else w'.log == w.log + [Decision(c.bucket, c.at, false)] && w'.counts == w.counts
                     && w'.calls == w.calls - {worker} && after == before)
  {
    hide Tally, CallKey;
    CallCounts(w, w.calls[worker], true);
    CallCounts(w, w.calls[worker], false);
  }

  lemma CallCounts(w: World, c: Call, accepted: bool)
    requires w.windowSize >= 1
    ensures Tally(w.log + [Decision(c.bucket, c.at, accepted)], CallKey(w, c), w.windowSize)
         == Tally(w.log, CallKey(w, c), w.windowSize) + if accepted then 1 else 0
  {
    TallyPush(w.log, Decision(c.bucket, c.at, accepted), CallKey(w, c), w.windowSize);
  }

  // One window looks the same to everybody in both worlds.
  ghost predicate SameWindow(w: World, w': World, key: Key)
    requires w.windowSize >= 1 && w'.windowSize >= 1
  {
    && (key in w'.counts <==> key in w.counts) && (key in w.counts ==> w'.counts[key] == w.counts[key])
    && Tally(w'.log, key, w'.windowSize) == Tally(w.log, key, w.windowSize)
    && InFlight(w', key) == InFlight(w, key)
    && forall k | k in InFlight(w, key) :: w'.calls[k] == w.calls[k]
  }

  // A statement moves no other window.
  lemma StatementElsewhere(w: World, worker: nat, key: Key)
    requires Legal(w) && worker in w.calls && CallKey(w, w.calls[worker]) != key
    ensures Legal(DoStatement(w, worker)) && SameWindow(w, DoStatement(w, worker), key)
  {
    hide Tally;
    var (c, w') := (w.calls[worker], DoStatement(w, worker));
    TallyPush(w.log, Decision(c.bucket, c.at, true), key, w.windowSize);
    TallyPush(w.log, Decision(c.bucket, c.at, false), key, w.windowSize);
    StatementEffect(w, worker, CallKey(w, c));
    hide DoStatement;
    forall k ensures k in InFlight(w', key) <==> k in InFlight(w, key) {
      if k in w.calls && k != worker {
        assert k in w'.calls && w'.calls[k] == w.calls[k];
      }
    }
  }

  lemma Leaves(w: World, w': World, worker: nat, key: Key)
    requires Legal(w) && Legal(w') && w'.windowSize == w.windowSize
    requires worker in w.calls && CallKey(w, w.calls[worker]) == key && w'.calls == w.calls - {worker}
    ensures InFlight(w', key) == InFlight(w, key) - {worker} && |InFlight(w', key)| == |InFlight(w, key)| - 1
  {
    assert InFlight(w', key) == InFlight(w, key) - {worker};
    assert worker in InFlight(w, key);
  }

  lemma Stays(w: World, w': World, worker: nat, key: Key, phase: Phase)
    requires Legal(w) && worker in w.calls && CallKey(w, w.calls[worker]) == key
    requires w' == w.(calls := w.calls[worker := w.calls[worker].(phase := phase)])
    ensures InFlight(w', key) == InFlight(w, key)
  {
    assert forall k | k in w.calls :: CallKey(w', w'.calls[k]) == CallKey(w, w.calls[k]);
  }

  // ---------------------------------------------------------------- how the limit is broken

  // A call that meets a row under the limit is accepted within three statements.
  lemma Accepted(w: World, worker: nat, key: Key) returns (steps: seq<Step>)
    requires Legal(w) && worker in w.calls && CallKey(w, w.calls[worker]) == key
    requires key in w.counts && w.counts[key] < w.limits[key.bucket]
    ensures NoPurge(steps)
    ensures var r := Run(w, steps);
            && Legal(r) && key in r.counts && r.counts[key] == w.counts[key] + 1
            && Tally(r.log, key, w.windowSize) == Tally(w.log, key, w.windowSize) + 1
            && |InFlight(r, key)| == |InFlight(w, key)| - 1
    decreases if w.calls[worker].phase.Insert? then 1 else 0
  {
    var w' := Next(w, Statement(worker));
    StatementEffect(w, worker, key);
    hide DoStatement, Tally, InFlight, Legal;
    if w.calls[worker].phase.Insert? {
      Stays(w, w', worker, key, Retry);
      var rest := Accepted(w', worker, key);
      steps := [Statement(worker)] + rest;
      assert steps[1..] == rest;
    } else {
      Leaves(w, w', worker, key);
      steps := [Statement(worker)];
      assert steps[1..] == [];
    }
  }

  // A row that counts fewer hits than its window accepted, with enough calls in flight on it.
  lemma {:induction false} Exceed(w: World, key: Key) returns (steps: seq<Step>)
    requires Legal(w) && key.bucket in w.limits && key in w.counts
    requires w.counts[key] < Tally(w.log, key, w.windowSize)
    requires Tally(w.log, key, w.windowSize) + |InFlight(w, key)| > w.limits[key.bucket]
    ensures NoPurge(steps) && Tally(Run(w, steps).log, key, w.windowSize) > w.limits[key.bucket]
    decreases |InFlight(w, key)|
  {
    hide Tally;
    if Tally(w.log, key, w.windowSize) > w.limits[key.bucket] {
      steps := [];
    } else {
      assert InFlight(w, key) != {};
      var worker :| worker in InFlight(w, key);
      var first := Accepted(w, worker, key);
      var rest := Exceed(Run(w, first), key);
      steps := first + rest;
      RunConcat(w, first, rest);
    }
  }

  // A call that can create the missing row does, within two statements.
  lemma Restart(w: World, worker: nat, key: Key) returns (steps: seq<Step>)
    requires Legal(w) && worker in w.calls && CallKey(w, w.calls[worker]) == key
    requires key !in w.counts && !w.calls[worker].phase.Retry?
    ensures NoPurge(steps)
    ensures var r := Run(w, steps);
            && Legal(r) && key in r.counts && r.counts[key] == 1
            && Tally(r.log, key, w.windowSize) == Tally(w.log, key, w.windowSize) + 1
            && |InFlight(r, key)| == |InFlight(w, key)| - 1
    decreases if w.calls[worker].phase.Update? then 1 else 0
  {
    var w' := Next(w, Statement(worker));
    StatementEffect(w, worker, key);
    hide DoStatement, Tally, InFlight, Legal;
    if w.calls[worker].phase.Update? {
      Stays(w, w', worker, key, Insert);
      var rest := Restart(w', worker, key);
      steps := [Statement(worker)] + rest;
      assert steps[1..] == rest;
    } else {
      Leaves(w, w', worker, key);
      steps := [Statement(worker)];
      assert steps[1..] == [];
    }
  }

  lemma OverdrawnBreaks(w: World, key: Key) returns (steps: seq<Step>)
    requires Sequential(w) && Overdrawn(w, key)
    ensures NoPurge(steps) && Overrun(Run(DoPurge(w), steps))
  {
    var p := DoPurge(w);
    assert Judged(w, key);
    var worker :| worker in w.calls && CallKey(w, w.calls[worker]) == key && !w.calls[worker].phase.Retry?;
    assert InFlight(p, key) == InFlight(w, key);
    var first := Restart(p, worker, key);
    var rest := Exceed(Run(p, first), key);
    steps := first + rest;
    RunConcat(p, first, rest);
  }

  // ---------------------------------------------------------------- how it is kept

  // One window cannot pass its limit any more: its row counts every hit, or it is past and those
  // still in flight on it are few enough, or can only be refused.
  ghost predicate Contained(w: World, key: Key)
    requires w.windowSize >= 1 && key.bucket in w.limits
  {
    var hits, limit := Tally(w.log, key, w.windowSize), w.limits[key.bucket];
    && hits <= limit
    && (|| CountOf(w.counts, key) == hits
        || (key.window < Window(w, w.now)
          && (hits + |InFlight(w, key)| <= limit || (key !in w.counts && !CanInsert(w, key)))))
  }

  lemma StatementContains(w: World, worker: nat, key: Key)
    requires Legal(w) && key.bucket in w.limits && Contained(w, key)
    requires worker in w.calls && CallKey(w, w.calls[worker]) == key
    ensures Contained(DoStatement(w, worker), key)
  {
    var (w', c) := (DoStatement(w, worker), w.calls[worker]);
    StatementEffect(w, worker, key);
    hide DoStatement, Tally, InFlight;
    if w'.calls == w.calls - {worker} {
      Leaves(w, w', worker, key);
    } else {
      Stays(w, w', worker, key, w'.calls[worker].phase);
    }
    assert worker in InFlight(w, key) by { Member(w, worker, key); }
    assert |InFlight(w, key)| >= 1;
  }

  lemma Member(w: World, worker: nat, key: Key)
    requires w.windowSize >= 1 && worker in w.calls && CallKey(w, w.calls[worker]) == key
    ensures worker in InFlight(w, key)
  {}

  // Nothing but its own calls and the clock touches a window; a past one gets no new calls.
  lemma QuietStep(w: World, step: Step, key: Key)
    requires Legal(w) && !step.Purge?
    requires step.Statement? ==> step.worker !in w.calls || CallKey(w, w.calls[step.worker]) != key
    ensures var w' := Next(w, step);
            && Legal(w') && Window(w, w.now) <= Window(w', w'.now)
            && (key.window < Window(w, w.now) || step.Statement? || step.Tick? ==> SameWindow(w, w', key))
            && CountOf(w'.counts, key) == CountOf(w.counts, key) && (key in w'.counts <==> key in w.counts)
            && Tally(w'.log, key, w.windowSize) == Tally(w.log, key, w.windowSize)
            && (forall k | k in InFlight(w', key) ::
              (k in InFlight(w, key) && w'.calls[k] == w.calls[k]) || w'.calls[k].phase.Update?)
  {
    hide Tally;
    match step
    case Statement(worker) =>
      if worker in w.calls {
        StatementElsewhere(w, worker, key);
        hide DoStatement;
        StatementClock(w, worker);
      }
    case Tick(elapsed) => QuotientMonotone(w.now, w.now + elapsed, w.windowSize);
    case Arrive(worker, bucket) =>
  }

  lemma StatementClock(w: World, worker: nat)
    requires w.windowSize >= 1
    ensures DoStatement(w, worker).now == w.now
  {}

  lemma StepContains(w: World, step: Step, key: Key)
    requires Legal(w) && key.bucket in w.limits && Contained(w, key) && !step.Purge?
    ensures Legal(Next(w, step)) && Contained(Next(w, step), key)
  {
    hide Tally, DoStatement;
    if step.Statement? && step.worker in w.calls && CallKey(w, w.calls[step.worker]) == key {
      StatementEffect(w, step.worker, key);
      StatementContains(w, step.worker, key);
    } else {
      QuietStep(w, step, key);
      hide Next, InFlight;
      SameInserters(w, Next(w, step), key);
    }
  }

  lemma SameInserters(w: World, w': World, key: Key)
    requires w.windowSize >= 1 && w'.windowSize == w.windowSize
    ensures SameWindow(w, w', key) ==>
      (CanInsert(w', key) <==> CanInsert(w, key)) && (CanMiss(w', key) <==> CanMiss(w, key))
  {
    if SameWindow(w, w', key) {
      assert forall k | k in w.calls && CallKey(w, w.calls[k]) == key :: k in InFlight(w, key);
      assert forall k | k in w'.calls && CallKey(w', w'.calls[k]) == key :: k in InFlight(w', key);
    }
  }

  lemma {:induction false} RunContains(w: World, steps: seq<Step>, key: Key)
    requires w.windowSize >= 1 && Legal(w) && key.bucket in w.limits && Contained(w, key) && NoPurge(steps)
    ensures Contained(Run(w, steps), key)
    decreases |steps|
  {
    hide Contained, Next, Legal;
    if steps != [] {
      assert forall i | 0 <= i < |steps[1..]| :: steps[1..][i] == steps[i + 1];
      StepContains(w, steps[0], key);
      RunContains(Next(w, steps[0]), steps[1..], key);
    }
  }

  lemma PurgeContains(w: World, key: Key)
    requires Legal(w) && key.bucket in w.limits && Judged(w, key) && !Overdrawn(w, key)
    ensures Legal(DoPurge(w)) && Contained(DoPurge(w), key)
  {
    hide Tally;
    var p := DoPurge(w);
    assert InFlight(p, key) == InFlight(w, key);
    assert CanInsert(p, key) <==> CanInsert(w, key);
    hide InFlight, CanInsert, CanMiss;
  }

  // A purge lets some way of going on, without any other purge, break the limit exactly when it
  // removes a row whose window's accepted hits and calls in flight together pass the limit, one of
  // those calls being able to create the row anew.
  lemma PurgeBreaksTheLimitIff(w: World)
    requires w.windowSize >= 1 && Sequential(w)
    ensures (exists steps :: NoPurge(steps) && Overrun(Run(DoPurge(w), steps))) <==> exists key :: Overdrawn(w, key)
  {
    hide Purged, Run, Contained, Legal, Overdrawn, Judged, Linear;
    if key :| Overdrawn(w, key) {
      var steps := OverdrawnBreaks(w, key);
    } else {
      forall steps | NoPurge(steps) ensures !Overrun(Run(DoPurge(w), steps)) {
        forall key: Key | key.bucket in w.limits
          ensures Tally(Run(DoPurge(w), steps).log, key, w.windowSize) <= w.limits[key.bucket]
        {
          PurgeContains(w, key);
          RunContains(DoPurge(w), steps, key);
          ContainedMeans(Run(DoPurge(w), steps), key);
        }
      }
    }
  }

  lemma ContainedMeans(w: World, key: Key)
    requires w.windowSize >= 1 && key.bucket in w.limits && Contained(w, key)
    ensures Tally(w.log, key, w.windowSize) <= w.limits[key.bucket]
  {}

  // ---------------------------------------------------------------- wrong answers

  // The answer a statement gives, if it gives one, is the sequential limiter's.
  ghost predicate RightAnswer(w: World, w': World, c: Call)
    requires w.windowSize >= 1 && c.bucket in w.limits
  {
    || w'.log == w.log
    || w'.log == w.log + [Decision(c.bucket, c.at, Tally(w.log, CallKey(w, c), w.windowSize) < w.limits[c.bucket])]
  }

  lemma StatementAnswers(w: World, worker: nat, key: Key)
    requires Legal(w) && key.bucket in w.limits && Judged(w, key)
    requires worker in w.calls && CallKey(w, w.calls[worker]) == key
    ensures RightAnswer(w, DoStatement(w, worker), w.calls[worker])
  {
    StatementEffect(w, worker, key);
    hide DoStatement, Tally, InFlight;
    Member(w, worker, key);
    assert |InFlight(w, key)| >= 1;
  }

  // A statement leaves nobody else able to insert or to miss who was not before.
  lemma NobodyElse(w: World, w': World, worker: nat, key: Key)
    requires w.windowSize >= 1 && w'.windowSize == w.windowSize && worker in w.calls
    requires forall k | k in w'.calls && k != worker :: k in w.calls && w'.calls[k] == w.calls[k]
    requires worker in w'.calls ==> w'.calls[worker] == w.calls[worker].(phase := w'.calls[worker].phase)
    ensures CanInsert(w', key) ==> CanInsert(w, key) || (worker in w'.calls && !w'.calls[worker].phase.Retry?)
    ensures CanMiss(w', key) ==> CanMiss(w, key) || (worker in w'.calls && w'.calls[worker].phase.Retry?)
  {}

  // All that being judged depends on.
  datatype Sight = Sight(hits: int, limit: int, row: bool, count: int, calls: int, insert: bool, miss: bool, past: bool)

  ghost function SightOf(w: World, key: Key): Sight
    requires w.windowSize >= 1 && key.bucket in w.limits
  {
    Sight(Tally(w.log, key, w.windowSize), w.limits[key.bucket], key in w.counts, CountOf(w.counts, key),
          |InFlight(w, key)|, CanInsert(w, key), CanMiss(w, key), key.window < Window(w, w.now))
  }

  predicate InOrder(v: Sight) {
    && v.hits <= v.limit
    && (|| (v.count == v.hits && (v.miss ==> v.row))
        || (&& v.past
            && (|| (v.hits == v.limit && !v.row && !v.insert)
                || (v.hits + v.calls <= v.limit && v.count <= v.hits && (v.miss ==> v.row)))))
  }

  // A call is answered and goes, with a hit counted in its row or none.
  predicate Answers(v: Sight, v': Sight, hit: int) {
    && v' == v.(hits := v.hits + hit, row := v'.row, count := v.count + hit, calls := v.calls - 1,
                insert := v'.insert, miss := v'.miss)
    && (v'.row <==> v.row || hit == 1) && (v'.insert ==> v.insert) && (v'.miss ==> v.miss)
  }

  // It goes on to its next statement.
  predicate GoesOn(v: Sight, v': Sight, last: bool) {
    && v' == v.(insert := v'.insert, miss := v'.miss)
    && (v'.insert ==> v.insert) && (v'.miss ==> v.miss || last)
  }

  lemma StaysInOrder(v: Sight, v': Sight, phase: Phase)
    requires InOrder(v) && v.calls >= 1 && (phase.Retry? ==> v.miss) && (!phase.Retry? ==> v.insert)
    requires v.count >= 0 && v.limit >= 1 && (!v.row ==> v.count == 0)
    requires if v.row && v.count < v.limit && !phase.Insert? then Answers(v, v', 1)
             else if phase.Update? then GoesOn(v, v', false)
             else if phase.Insert? && !v.row then Answers(v, v', 1)
             else if phase.Insert? then GoesOn(v, v', true)
             else Answers(v, v', 0)
    ensures InOrder(v')
  {}

  // What a statement does to the sight of its window.
  lemma StatementSights(w: World, worker: nat, key: Key)
    requires Legal(w) && key.bucket in w.limits && worker in w.calls && CallKey(w, w.calls[worker]) == key
    ensures var (w', phase) := (DoStatement(w, worker), w.calls[worker].phase);
            w'.windowSize == w.windowSize && w'.limits == w.limits
            && var (v, v') := (SightOf(w, key), SightOf(w', key));
               && v.calls >= 1 && (phase.Retry? ==> v.miss) && (!phase.Retry? ==> v.insert)
               && v.count >= 0 && v.limit >= 1 && (!v.row ==> v.count == 0)
               && (if v.row && v.count < v.limit && !phase.Insert? then Answers(v, v', 1)
                   else if phase.Update? then GoesOn(v, v', false)
                   else if phase.Insert? && !v.row then Answers(v, v', 1)
                   else if phase.Insert? then GoesOn(v, v', true)
                   else Answers(v, v', 0))
  {
    var (w', c) := (DoStatement(w, worker), w.calls[worker]);
    StatementEffect(w, worker, key);
    StatementClock(w, worker);
    hide DoStatement, Tally, InFlight;
    Member(w, worker, key);
    NobodyElse(w, w', worker, key);
    assert c.phase.Retry? ==> CanMiss(w, key);
    assert !c.phase.Retry? ==> CanInsert(w, key);
    hide CanInsert, CanMiss;
    if w'.calls == w.calls - {worker} {
      Leaves(w, w', worker, key);
    } else {
      Stays(w, w', worker, key, w'.calls[worker].phase);
    }
  }

  lemma StatementJudges(w: World, worker: nat, key: Key)
    requires Legal(w) && key.bucket in w.limits && Judged(w, key)
    requires worker in w.calls && CallKey(w, w.calls[worker]) == key
    ensures RightAnswer(w, DoStatement(w, worker), w.calls[worker])
    ensures Judged(DoStatement(w, worker), key)
  {
    hide RightAnswer, DoStatement, InOrder, Judged, Answers, GoesOn;
    StatementAnswers(w, worker, key);
    StatementSights(w, worker, key);
    hide SightOf;
    JudgedIs(w, key);
    StaysInOrder(SightOf(w, key), SightOf(DoStatement(w, worker), key), w.calls[worker].phase);
    JudgedIs(DoStatement(w, worker), key);
  }

  lemma JudgedIs(w: World, key: Key)
    requires w.windowSize >= 1 && key.bucket in w.limits
    ensures Judged(w, key) <==> InOrder(SightOf(w, key))
  {
    hide Tally, InFlight, CanInsert, CanMiss;
  }

  lemma StepJudges(w: World, step: Step, key: Key)
    requires Legal(w) && key.bucket in w.limits && Judged(w, key) && !step.Purge?
    ensures Legal(Next(w, step)) && Judged(Next(w, step), key)
  {
    hide Tally, DoStatement;
    if step.Statement? && step.worker in w.calls && CallKey(w, w.calls[step.worker]) == key {
      StatementEffect(w, step.worker, key);
      StatementJudges(w, step.worker, key);
    } else {
      QuietStep(w, step, key);
      SameInserters(w, Next(w, step), key);
      FewerMisses(w, Next(w, step), key);
      hide Next, InFlight, CanMiss, CanInsert;
    }
  }

  lemma FewerMisses(w: World, w': World, key: Key)
    requires w.windowSize >= 1 && w'.windowSize == w.windowSize
    requires forall k | k in InFlight(w', key) ::
        (k in InFlight(w, key) && w'.calls[k] == w.calls[k]) || w'.calls[k].phase.Update?
    ensures CanMiss(w', key) ==> CanMiss(w, key)
  {
    if k :| k in w'.calls && CallKey(w', w'.calls[k]) == key && w'.calls[k].phase.Retry? {
      assert k in InFlight(w', key);
    }
  }

  lemma PurgeJudges(w: World, key: Key)
    requires Legal(w) && key.bucket in w.limits && Judged(w, key) && !Overdrawn(w, key) && !Stranded(w, key)
    ensures Legal(DoPurge(w)) && Judged(DoPurge(w), key)
  {
    hide Tally;
    var p := DoPurge(w);
    assert InFlight(p, key) == InFlight(w, key);
    assert (CanInsert(p, key) <==> CanInsert(w, key)) && (CanMiss(p, key) <==> CanMiss(w, key));
    Somebody(w, key);
    hide InFlight, CanInsert, CanMiss;
  }

  lemma Somebody(w: World, key: Key)
    requires w.windowSize >= 1
    ensures InFlight(w, key) != {} <==> CanInsert(w, key) || CanMiss(w, key)
  {
    assert forall k | k in w.calls && CallKey(w, w.calls[k]) == key :: k in InFlight(w, key);
    if k :| k in InFlight(w, key) {
      assert k in w.calls && CallKey(w, w.calls[k]) == key;
    }
  }

  // No row the purge removes is one it may not.
  ghost predicate Tolerable(w: World)
    requires w.windowSize >= 1
  {
    forall key :: !Overdrawn(w, key) && !Stranded(w, key)
  }

  lemma StepStaysSequential(w: World, step: Step)
    requires w.windowSize >= 1 && Sequential(w) && (step.Purge? ==> Tolerable(w))
    ensures Sequential(Next(w, step))
  {
    hide Judged, Tally, Overdrawn, Stranded, DoStatement;
    var w' := Next(w, step);
    forall key: Key | key.bucket in w.limits ensures Legal(w') && Judged(w', key) {
      if step.Purge? {
        PurgeJudges(w, key);
      } else {
        StepJudges(w, step, key);
      }
    }
    LegalStep(w, step);
    if step.Statement? && step.worker in w.calls {
      var c := w.calls[step.worker];
      StatementJudges(w, step.worker, CallKey(w, c));
      if w'.log != w.log {
        LinearPush(w.log, w'.log[|w.log|], w.limits, w.windowSize);
      }
    } else {
      IdleLog(w, step);
    }
  }

  lemma IdleLog(w: World, step: Step)
    requires w.windowSize >= 1 && (step.Statement? ==> step.worker !in w.calls)
    ensures Next(w, step).log == w.log
  {}

  lemma LegalStep(w: World, step: Step)
    requires Legal(w)
    ensures Legal(Next(w, step))
  {
    hide Tally;
  }

  ghost predicate AllTolerable(w: World, steps: seq<Step>)
    requires w.windowSize >= 1
    decreases |steps|
  {
    steps != [] ==> (steps[0].Purge? ==> Tolerable(w)) && AllTolerable(Next(w, steps[0]), steps[1..])
  }

  lemma {:induction false} RunStaysSequential(w: World, steps: seq<Step>)
    requires w.windowSize >= 1 && Sequential(w) && AllTolerable(w, steps)
    ensures Sequential(Run(w, steps))
    decreases |steps|
  {
    hide Sequential, Next, Tolerable;
    if steps != [] {
      StepStaysSequential(w, steps[0]);
      RunStaysSequential(Next(w, steps[0]), steps[1..]);
    }
  }

  lemma InitialIsSequential(w: World)
    requires Initial(w)
    ensures Sequential(w)
  {
    forall key: Key | key.bucket in w.limits ensures Judged(w, key) {
      assert Tally([], key, w.windowSize) == 0;
    }
  }

  // Whatever the interleaving, as long as every purge is tolerable, the answers are those of the
  // sequential limiter and no window ever accepts more than its limit.
  lemma AnswersStaySequential(w: World, steps: seq<Step>)
    requires Initial(w) && AllTolerable(w, steps)
    ensures var r := Run(w, steps);
            && Linear(r.log, w.limits, w.windowSize)
            && forall key: Key | key.bucket in w.limits :: Tally(r.log, key, w.windowSize) <= w.limits[key.bucket]
  {
    hide Judged, Run, Tolerable;
    InitialIsSequential(w);
    RunStaysSequential(w, steps);
    var r := Run(w, steps);
    forall key: Key | key.bucket in w.limits ensures Tally(r.log, key, w.windowSize) <= w.limits[key.bucket] {
      LinearBounds(r.log, w.limits, w.windowSize, key);
    }
  }

  lemma {:induction false} LinearBounds(log: seq<Decision>, limits: map<string, int>, windowSize: int, key: Key)
    requires windowSize >= 1 && Linear(log, limits, windowSize) && key.bucket in limits && limits[key.bucket] >= 0
    ensures Tally(log, key, windowSize) <= limits[key.bucket]
  {
    if log != [] {
      var n := |log| - 1;
      forall i | 0 <= i < n
        ensures var d := log[..n][i];
                d.bucket in limits && (d.accepted <==>
                  Tally(log[..n][..i], Key(d.bucket, d.at / windowSize), windowSize) < limits[d.bucket])
      {
        assert log[..n][..i] == log[..i];
      }
      LinearBounds(log[..n], limits, windowSize, key);
    }
  }

  // Any span of one window length, wherever it starts, admits at most twice the limit.
  lemma SpanAdmitsTwiceTheLimit(w: World, steps: seq<Step>, bucket: string, from: int)
    requires Initial(w) && AllTolerable(w, steps) && bucket in w.limits
    ensures HitsInSpan(Run(w, steps).log, bucket, from, w.windowSize) <= 2 * w.limits[bucket]
  {
    AnswersStaySequential(w, steps);
    SpanWithinTallies(Run(w, steps).log, bucket, from, w.windowSize);
  }

  // A purge that takes no row a call in flight needs is tolerable.
  lemma HarmlessIsTolerable(w: World)
    requires w.windowSize >= 1 && Harmless(w)
    ensures Tolerable(w)
  {
    hide Tally;
  }

  lemma StrandedMisjudges(w: World, key: Key) returns (steps: seq<Step>)
    requires Sequential(w) && Stranded(w, key)
    ensures NoPurge(steps) && !Linear(Run(DoPurge(w), steps).log, w.limits, w.windowSize)
  {
    hide Tally, DoStatement, Judged;
    var p := DoPurge(w);
    var worker :| worker in w.calls && CallKey(w, w.calls[worker]) == key && w.calls[worker].phase.Retry?;
    StatementEffect(p, worker, key);
    steps := [Statement(worker)];
    assert steps[1..] == [];
    assert Run(p, steps) == DoStatement(p, worker);
    var log := w.log + [Decision(w.calls[worker].bucket, w.calls[worker].at, false)];
    assert log[..|w.log|] == w.log;
    assert !log[|w.log|].accepted;
  }

  lemma OverrunMisjudges(w: World)
    requires w.windowSize >= 1 && Overrun(w) && (forall b | b in w.limits :: w.limits[b] >= 1)
    ensures !Linear(w.log, w.limits, w.windowSize)
  {
    if Linear(w.log, w.limits, w.windowSize) {
      var key: Key :| key.bucket in w.limits && Tally(w.log, key, w.windowSize) > w.limits[key.bucket];
      LinearBounds(w.log, w.limits, w.windowSize, key);
    }
  }

  lemma {:induction false} TolerableWithoutPurge(w: World, steps: seq<Step>)
    requires w.windowSize >= 1 && NoPurge(steps)
    ensures AllTolerable(w, steps)
    decreases |steps|
  {
    if steps != [] {
      assert forall i | 0 <= i < |steps[1..]| :: steps[1..][i] == steps[i + 1];
      TolerableWithoutPurge(Next(w, steps[0]), steps[1..]);
    }
  }

  // A purge lets some way of going on, without any other purge, answer somebody wrongly exactly when it
  // is not tolerable: it removes a row whose calls in flight can pass the limit, or one, under the
  // limit, that a call on its last statement needs.
  lemma PurgeMisjudgesIff(w: World)
    requires w.windowSize >= 1 && Sequential(w)
    ensures (exists steps :: NoPurge(steps) && !Linear(Run(DoPurge(w), steps).log, w.limits, w.windowSize)) <==>
        !Tolerable(w)
  {
    hide Purged, Run, Overdrawn, Stranded, Judged;
    if key :| Overdrawn(w, key) {
      var steps := OverdrawnBreaks(w, key);
      OverrunMisjudges(Run(DoPurge(w), steps));
    } else if key :| Stranded(w, key) {
      var steps := StrandedMisjudges(w, key);
    } else {
      forall steps | NoPurge(steps) ensures Linear(Run(DoPurge(w), steps).log, w.limits, w.windowSize) {
        StepStaysSequential(w, Purge);
        TolerableWithoutPurge(DoPurge(w), steps);
        RunStaysSequential(DoPurge(w), steps);
      }
    }
  }
}
