/** What the granting handlers leave behind, grant by grant, and exactly when they let a request through
    (backend/app/authorization.py:100-125, backend/app/routers/platform.py:720-943,
    backend/app/routers/people.py:213-262). */
module GrantEffects {
  import opened Options
  import opened Delegation

  // ---------------------------------------------------------------- the ceiling, both ways

  // A grant of the actor's own, not over, that covers the request; a role without permissions is only
  // covered by itself.
  ghost predicate OwnCover(p: Desk, actor: UserId, role: RoleId, expiry: Option<Instant>, h: Holding)
    requires role in p.roles
  {
    && h in p.grants && h.user == actor
    && (p.grants[h] == None || p.now < p.grants[h].value)
    && Covers(p.roles, h.role, p.grants[h], role, expiry)
    && (h.role == role || p.roles[role].permissions != {})
  }

  // Each answer is given in exactly one case: the target is out of reach, the expiry is not ahead, or the
  // actor is no administrator and asks for themselves, for an administrator, or for more than one grant
  // of their own covers. Everything else is let through.
  lemma CeilingIff(p: Desk, actor: UserId, target: UserId, role: RoleId, expiry: Option<Instant>)
    requires role in p.roles
    ensures var reached := actor in p.admins || (actor, target) in p.reach;
            var ahead := expiry == None || p.now < expiry.value;
            var delegable := actor != target && target !in p.admins && exists h :: OwnCover(p, actor, role, expiry, h);
            var r := Ceiling(p, actor, target, role, expiry);
            && (r == Some(OutOfScope) <==> !reached)
            && (r == Some(InvalidExpiry) <==> reached && !ahead)
            && (r == Some(Escalation) <==> reached && ahead && actor !in p.admins && !delegable)
            && (r == None <==> reached && ahead && (actor in p.admins || delegable))
  {
    forall h ensures OwnCover(p, actor, role, expiry, h) <==>
        h in p.grants && Candidate(p, actor, role, h) && NoLater(expiry, p.grants[h])
    {
    }
  }

  // ---------------------------------------------------------------- one grant, and one for many

  // `q` has the grants of `p` as they were and, where there was none, `expiry` for these holdings.
  ghost predicate Adds(p: Desk, q: Desk, wanted: set<Holding>, expiry: Option<Instant>) {
    && (forall h :: h in q.grants <==> h in p.grants || h in wanted)
    && (forall h | h in p.grants :: q.grants[h] == p.grants[h])
    && (forall h | h in wanted && h !in p.grants :: q.grants[h] == expiry)
    && q.roles == p.roles && q.admins == p.admins && q.reach == p.reach && q.now == p.now
  }

  lemma AddGives(p: Desk, actor: UserId, target: UserId, role: RoleId)
    ensures Adds(p, Add(p, actor, target, role, None), {Holding(target, role)}, None)
  {}

  lemma AddsJoin(p: Desk, q: Desk, r: Desk, a: set<Holding>, b: set<Holding>)
    requires Adds(p, q, a, None) && Adds(q, r, b, None)
    ensures Adds(p, r, a + b, None)
  {}

  lemma AddsNothing(p: Desk)
    ensures Adds(p, p, {}, None)
  {}

  function Rows(users: seq<UserId>, role: RoleId): set<Holding> {
    set u | u in users :: Holding(u, role)
  }

  function RowsOf(user: UserId, roles: seq<RoleId>): set<Holding> {
    set r | r in roles :: Holding(user, r)
  }

  // An allowed request leaves the target holding the role, until the time asked for if they did not hold
  // it before, and changes nothing else.
  lemma CreateGives(p: Desk, actor: UserId, target: UserId, role: RoleId, expiry: Option<Instant>)
    ensures var q := DoCreate(p, actor, target, role, expiry);
            if role in p.roles && Ceiling(p, actor, target, role, expiry).None?
            then Adds(p, q, {Holding(target, role)}, expiry) else q == p
  {
    hide Ceiling;
  }

  lemma {:induction false} EachGives(p: Desk, actor: UserId, targets: seq<UserId>, role: RoleId)
    ensures Adds(p, AddEach(p, actor, targets, role), Rows(targets, role), None)
  {
    if targets != [] {
      EachGives(p, actor, targets[..|targets| - 1], role);
      assert targets == targets[..|targets| - 1] + [targets[|targets| - 1]];
    }
  }

  // An allowed bulk request leaves every target with the role and changes nothing else; it is allowed
  // exactly when each target is.
  lemma BulkGives(p: Desk, actor: UserId, targets: seq<UserId>, role: RoleId)
    ensures var q := DoBulk(p, actor, targets, role);
            if role in p.roles && forall u | u in targets :: Ceiling(p, actor, u, role, None).None?
            then Adds(p, q, Rows(targets, role), None) else q == p
  {
    hide Ceiling, AddEach, Adds;
    EachGives(p, actor, targets, role);
  }

  // ---------------------------------------------------------------- a new person

  ghost predicate NoRepeats(roles: seq<RoleId>) {
    forall i, j | 0 <= i < j < |roles| :: roles[i] != roles[j]
  }

  // Granting somebody else, or being an administrator, does not move one's own ceiling.
  lemma CeilingStays(p: Desk, q: Desk, actor: UserId, user: UserId, role: RoleId)
    requires role in p.roles && q.roles == p.roles && q.admins == p.admins && q.reach == p.reach && q.now == p.now
    requires forall h: Holding | h.user != user :: h in q.grants <==> h in p.grants
    requires forall h: Holding | h.user != user && h in p.grants :: q.grants[h] == p.grants[h]
    ensures Ceiling(q, actor, user, role, None) == Ceiling(p, actor, user, role, None)
  {
    if actor !in p.admins && actor != user {
      forall h: Holding | h.user == actor
        ensures Candidate(q, actor, role, h) && NoLater(None, q.grants[h])
            <==> Candidate(p, actor, role, h) && NoLater(None, p.grants[h])
      {
      }
    }
  }

  ghost predicate Addable(p: Desk, actor: UserId, user: UserId, roles: seq<RoleId>) {
    && NoRepeats(roles)
    && forall r | r in roles :: r in p.roles && Holding(user, r) !in p.grants && Ceiling(p, actor, user, r, None).None?
  }

  lemma NoRepeatsFront(roles: seq<RoleId>)
    requires roles != []
    ensures var (front, last) := (roles[..|roles| - 1], roles[|roles| - 1]);
            && roles == front + [last]
            && (NoRepeats(roles) <==> NoRepeats(front) && last !in front)
  {
    var front := roles[..|roles| - 1];
    assert forall i | 0 <= i < |front| :: front[i] == roles[i];
    assert NoRepeats(roles) ==> roles[|roles| - 1] !in front;
  }

  // One more role, on the grants added so far.
  lemma SeedOneMore(p: Desk, q: Desk, actor: UserId, user: UserId, front: seq<RoleId>, last: RoleId)
    requires Adds(p, q, RowsOf(user, front), None)
    ensures last in q.roles && Holding(user, last) !in q.grants && Ceiling(q, actor, user, last, None).None?
            <==> && last in p.roles && Holding(user, last) !in p.grants && last !in front
                 && Ceiling(p, actor, user, last, None).None?
    ensures Adds(p, Add(q, actor, user, last, None), RowsOf(user, front + [last]), None)
  {
    assert Holding(user, last) in RowsOf(user, front) <==> last in front;
    assert RowsOf(user, front + [last]) == RowsOf(user, front) + {Holding(user, last)};
    AddGives(q, actor, user, last);
    AddsJoin(p, q, Add(q, actor, user, last, None), RowsOf(user, front), {Holding(user, last)});
    if last in p.roles {
      CeilingStays(p, q, actor, user, last);
    }
    hide Ceiling, Add;
  }

  // The ceiling is checked again for every role of a new person, but the grants added so far do not move
  // it: all are given exactly when each could be given on its own, was not held and is asked for once.
  lemma {:induction false} SeedGives(p: Desk, actor: UserId, user: UserId, roles: seq<RoleId>)
    ensures Seed(p, actor, user, roles).Some? <==> Addable(p, actor, user, roles)
    ensures Seed(p, actor, user, roles).Some? ==> Adds(p, Seed(p, actor, user, roles).value, RowsOf(user, roles), None)
  {
    hide Ceiling, Adds, Add;
    if roles == [] {
      AddsNothing(p);
      assert RowsOf(user, roles) == {};
    } else {
      var (front, last) := (roles[..|roles| - 1], roles[|roles| - 1]);
      SeedGives(p, actor, user, front);
      NoRepeatsFront(roles);
      hide NoRepeats;
      var s := Seed(p, actor, user, front);
      if s.Some? {
        SeedOneMore(p, s.value, actor, user, front, last);
      }
    }
  }

  lemma NewPersonGets(p: Desk, actor: UserId, user: UserId, roles: seq<RoleId>)
    ensures var q := DoNewPerson(p, actor, user, roles);
            if Addable(p, actor, user, roles) then Adds(p, q, RowsOf(user, roles), None) else q == p
  {
    hide Addable, Adds, Seed;
    SeedGives(p, actor, user, roles);
  }

  // ---------------------------------------------------------------- taking away, and the rest

  lemma OtherStepsMean(p: Desk, h: Holding, admins: set<UserId>, reach: set<(UserId, UserId)>, elapsed: nat)
    ensures var q := Next(p, Revoke(h));
            && q == p.(grants := q.grants) && h !in q.grants
            && (forall k | k != h :: k in q.grants <==> k in p.grants)
            && (forall k | k in q.grants :: q.grants[k] == p.grants[k])
    ensures Next(p, Reorganise(admins, reach)) == p.(admins := admins, reach := reach)
    ensures Next(p, Tick(elapsed)) == p.(now := p.now + elapsed)
  {}
}
