/** Delegated granting: the ceiling, and the handlers that add grants
    (backend/app/authorization.py:100-125, backend/app/routers/platform.py:720-943,
    backend/app/routers/people.py:213-262). */
module Delegation {
  import opened Options

  type UserId = nat
  type ServiceId = nat
  type RoleId = nat
  type Instant = int

  datatype Role = Role(service: ServiceId, permissions: set<string>)

  // One grant: at most one per person and role. Its value is the expiry.
  datatype Holding = Holding(user: UserId, role: RoleId)

  // `sanctioned` is book-keeping of the model: the grants present at the start and those a platform
  // administrator issued, by role and expiry. `reach` says whose grants.add covers whom.
  datatype Desk = Desk(
    now: Instant, admins: set<UserId>, reach: set<(UserId, UserId)>, roles: map<RoleId, Role>,
    grants: map<Holding, Option<Instant>>, sanctioned: set<(RoleId, Option<Instant>)>)

  datatype Refusal = OutOfScope | InvalidExpiry | Escalation

  predicate LiveAt(expiry: Option<Instant>, t: Instant) {
    expiry.None? || expiry.value > t
  }

  // `a` ends no later than `b`.
  predicate NoLater(a: Option<Instant>, b: Option<Instant>) {
    b.None? || (a.Some? && a.value <= b.value)
  }

  predicate Permits(p: Desk, actor: UserId, target: UserId) {
    actor in p.admins || (actor, target) in p.reach
  }

  // A live grant of the actor's that bounds the requested role.
  predicate Candidate(p: Desk, actor: UserId, role: RoleId, h: Holding)
    requires role in p.roles
  {
    && h in p.grants && h.user == actor && h.role in p.roles && p.roles[h.role].service == p.roles[role].service
    && LiveAt(p.grants[h], p.now)
    && (h.role == role || (p.roles[role].permissions != {} && p.roles[role].permissions <= p.roles[h.role].permissions))
  }

  // require_grant_ceiling
  function Ceiling(p: Desk, actor: UserId, target: UserId, role: RoleId, expiry: Option<Instant>): Option<Refusal>
    requires role in p.roles
  {
    if !Permits(p, actor, target) then Some(OutOfScope)
    else if expiry.Some? && expiry.value <= p.now then Some(InvalidExpiry)
    else if actor in p.admins then None
    else if actor == target || target in p.admins then Some(Escalation)
    else if exists h | h in p.grants :: Candidate(p, actor, role, h) && NoLater(expiry, p.grants[h]) then None
    else Some(Escalation)
  }

  // ---------------------------------------------------------------- the handlers

  function Add(p: Desk, actor: UserId, target: UserId, role: RoleId, expiry: Option<Instant>): Desk {
    if Holding(target, role) in p.grants then p
    else p.(grants := p.grants[Holding(target, role) := expiry],
            sanctioned := if actor in p.admins then p.sanctioned + {(role, expiry)} else p.sanctioned)
  }

  function DoCreate(p: Desk, actor: UserId, target: UserId, role: RoleId, expiry: Option<Instant>): Desk {
    if role in p.roles && Ceiling(p, actor, target, role, expiry).None? then Add(p, actor, target, role, expiry) else p
  }

  function AddEach(p: Desk, actor: UserId, targets: seq<UserId>, role: RoleId): Desk {
    if targets == [] then p
    else Add(AddEach(p, actor, targets[..|targets| - 1], role), actor, targets[|targets| - 1], role, None)
  }

  predicate AllWithin(p: Desk, actor: UserId, targets: seq<UserId>, role: RoleId) {
    role in p.roles && forall i | 0 <= i < |targets| :: Ceiling(p, actor, targets[i], role, None).None?
  }

  function DoBulk(p: Desk, actor: UserId, targets: seq<UserId>, role: RoleId): Desk {
    if AllWithin(p, actor, targets, role) then AddEach(p, actor, targets, role) else p
  }

  // One service of a batch, with the roles looked up; `mayReplace` is the grants.change and
  // grants.revoke check.
  datatype Item = Item(service: ServiceId, roles: seq<RoleId>, replace_: bool, mayReplace: bool)

  predicate ItemAllowed(p: Desk, actor: UserId, target: UserId, item: Item) {
    && item.roles != []
    && (forall i | 0 <= i < |item.roles| ::
          item.roles[i] in p.roles && p.roles[item.roles[i]].service == item.service
          && Ceiling(p, actor, target, item.roles[i], None).None?)
    && (item.replace_ ==> item.mayReplace)
  }

  function Unwanted(p: Desk, target: UserId, item: Item): set<Holding> {
    set h | h in p.grants && h.user == target && h.role in p.roles && p.roles[h.role].service == item.service
      && h.role !in item.roles
  }

  // A batch while it is being written: `deleted` are rows marked for deletion and not flushed yet. The
  // session does not flush before a query, so a later item of the batch still reads them.
  datatype Draft = Draft(desk: Desk, deleted: set<Holding>)

  // The desk once what is marked is gone.
  function Flushed(d: Draft): Desk {
    d.desk.(grants := d.desk.grants - d.deleted)
  }

  // `have` are the rows the item read; every row it adds is flushed.
  function WriteRoles(d: Draft, actor: UserId, target: UserId, roles: seq<RoleId>, have: set<Holding>): Draft {
    if roles == [] then d
    else
      var e := WriteRoles(d, actor, target, roles[..|roles| - 1], have);
      var role := roles[|roles| - 1];
      if Holding(target, role) in have then e else Draft(Add(Flushed(e), actor, target, role, None), {})
  }

  function Mark(d: Draft, target: UserId, item: Item): Draft {
    if item.replace_ then d.(deleted := d.deleted + Unwanted(d.desk, target, item)) else d
  }

  function ApplyItem(d: Draft, actor: UserId, target: UserId, item: Item): Draft {
    WriteRoles(Mark(d, target, item), actor, target, item.roles, d.desk.grants.Keys)
  }

  function ApplyItems(p: Desk, actor: UserId, target: UserId, items: seq<Item>): Draft {
    if items == [] then Draft(p, {})
    else ApplyItem(ApplyItems(p, actor, target, items[..|items| - 1]), actor, target, items[|items| - 1])
  }

  predicate BatchAllowed(p: Desk, actor: UserId, target: UserId, items: seq<Item>) {
    forall i | 0 <= i < |items| :: ItemAllowed(p, actor, target, items[i])
  }

  function DoBatch(p: Desk, actor: UserId, target: UserId, items: seq<Item>): Desk {
    if BatchAllowed(p, actor, target, items) then Flushed(ApplyItems(p, actor, target, items)) else p
  }

  // The grants of a new person: each is checked against the state its predecessors left, and the
  // first refusal, or a repeated role, undoes them all.
  function Seed(p: Desk, actor: UserId, user: UserId, roles: seq<RoleId>): Option<Desk> {
    if roles == [] then Some(p)
    else
      match Seed(p, actor, user, roles[..|roles| - 1])
      case None => None
      case Some(q) =>
        var role := roles[|roles| - 1];
        if role in q.roles && Ceiling(q, actor, user, role, None).None? && Holding(user, role) !in q.grants
        then Some(Add(q, actor, user, role, None)) else None
  }

  function DoNewPerson(p: Desk, actor: UserId, user: UserId, roles: seq<RoleId>): Desk {
    match Seed(p, actor, user, roles)
    case None => p
    case Some(q) => q
  }

  datatype Step =
    | Create(actor: UserId, target: UserId, role: RoleId, expiry: Option<Instant>)
    | Bulk(actor: UserId, targets: seq<UserId>, role: RoleId)
    | Batch(actor: UserId, target: UserId, items: seq<Item>)
    | NewPerson(actor: UserId, user: UserId, roles: seq<RoleId>)
    | Revoke(holding: Holding)
    | Reorganise(admins: set<UserId>, reach: set<(UserId, UserId)>)
    | Tick(elapsed: nat)

  function Next(p: Desk, step: Step): Desk {
    match step
    case Create(actor, target, role, expiry) => DoCreate(p, actor, target, role, expiry)
    case Bulk(actor, targets, role) => DoBulk(p, actor, targets, role)
    case Batch(actor, target, items) => DoBatch(p, actor, target, items)
    case NewPerson(actor, user, roles) => DoNewPerson(p, actor, user, roles)
    case Revoke(h) => p.(grants := p.grants - {h})
    case Reorganise(admins, reach) => p.(admins := admins, reach := reach)
    case Tick(elapsed) => p.(now := p.now + elapsed)
  }

  function Run(p: Desk, steps: seq<Step>): Desk {
    if steps == [] then p else Next(Run(p, steps[..|steps| - 1]), steps[|steps| - 1])
  }

  // ---------------------------------------------------------------- what a grant is worth

  // A grant of `role` until `expiry` gives nothing that one of `above` until `until` does not.
  predicate Covers(roles: map<RoleId, Role>, above: RoleId, until: Option<Instant>, role: RoleId,
      expiry: Option<Instant>)
  {
    && above in roles && role in roles && roles[above].service == roles[role].service
    && roles[role].permissions <= roles[above].permissions && NoLater(expiry, until)
  }

  ghost predicate Traced(p: Desk, role: RoleId, expiry: Option<Instant>) {
    exists s :: s in p.sanctioned && Covers(p.roles, s.0, s.1, role, expiry)
  }

  ghost predicate AllTraced(p: Desk) {
    forall h | h in p.grants :: Traced(p, h.role, p.grants[h])
  }

  // Someone can exercise `permission` on `service` at time `t`.
  ghost predicate CanExercise(p: Desk, service: ServiceId, permission: string, t: Instant) {
    exists h :: h in p.grants && LiveAt(p.grants[h], t) && h.role in p.roles && p.roles[h.role].service == service
      && permission in p.roles[h.role].permissions
  }

  // What a non-admin's accepted request rests on.
  lemma CeilingRestsOnAGrant(p: Desk, actor: UserId, target: UserId, role: RoleId, expiry: Option<Instant>)
    returns (h: Holding)
    requires role in p.roles && actor !in p.admins && Ceiling(p, actor, target, role, expiry).None?
    ensures h in p.grants && h.user == actor && LiveAt(p.grants[h], p.now)
        && Covers(p.roles, h.role, p.grants[h], role, expiry)
    ensures (actor, target) in p.reach && actor != target && target !in p.admins
    ensures LiveAt(expiry, p.now)
  {
    h :| h in p.grants && Candidate(p, actor, role, h) && NoLater(expiry, p.grants[h]);
  }

  ghost predicate RolesResolve(p: Desk) {
    forall h | h in p.grants :: h.role in p.roles
  }

  // Some grant of `p` covers it.
  ghost predicate FromGrant(p: Desk, role: RoleId, expiry: Option<Instant>) {
    exists k :: k in p.grants && Covers(p.roles, k.role, p.grants[k], role, expiry)
  }

  // Every grant of `q` is covered by one of `p`, unless an administrator issued it.
  ghost predicate Derived(p: Desk, q: Desk, admin: bool) {
    && q.roles == p.roles
    && p.sanctioned <= q.sanctioned && (!admin ==> q.sanctioned == p.sanctioned)
    && forall h | h in q.grants ::
      FromGrant(p, h.role, q.grants[h]) || (admin && h.role in p.roles && (h.role, q.grants[h]) in q.sanctioned)
  }

  ghost predicate Bounded(p: Desk, q: Desk, admin: bool) {
    q.admins == p.admins && Derived(p, q, admin)
  }

  lemma Itself(p: Desk)
    requires RolesResolve(p)
    ensures Bounded(p, p, false) && Bounded(p, p, true)
  {
    forall h | h in p.grants ensures FromGrant(p, h.role, p.grants[h]) {
      assert Covers(p.roles, h.role, p.grants[h], h.role, p.grants[h]);
    }
  }

  lemma AddBounded(p: Desk, q: Desk, actor: UserId, target: UserId, role: RoleId, expiry: Option<Instant>)
    requires Bounded(p, q, actor in p.admins) && role in p.roles
    requires actor in p.admins || FromGrant(p, role, expiry)
    ensures Bounded(p, Add(q, actor, target, role, expiry), actor in p.admins)
  {
    hide FromGrant;
  }

  lemma CeilingBounds(p: Desk, actor: UserId, target: UserId, role: RoleId, expiry: Option<Instant>)
    requires role in p.roles && Ceiling(p, actor, target, role, expiry).None?
    ensures actor in p.admins || FromGrant(p, role, expiry)
  {
    if actor !in p.admins {
      var h := CeilingRestsOnAGrant(p, actor, target, role, expiry);
    }
  }

  // Covering is transitive, so a grant resting on a later state rests on the earlier one.
  lemma EarlierGrant(p: Desk, q: Desk, role: RoleId, expiry: Option<Instant>)
    requires Bounded(p, q, false) && FromGrant(q, role, expiry)
    ensures FromGrant(p, role, expiry)
  {
    var k :| k in q.grants && Covers(q.roles, k.role, q.grants[k], role, expiry);
    assert FromGrant(p, k.role, q.grants[k]);
    var j :| j in p.grants && Covers(p.roles, j.role, p.grants[j], k.role, q.grants[k]);
    assert Covers(p.roles, j.role, p.grants[j], role, expiry);
  }

  lemma {:induction false} AddEachBounded(p: Desk, actor: UserId, targets: seq<UserId>, role: RoleId)
    requires RolesResolve(p) && role in p.roles && (actor in p.admins || FromGrant(p, role, None))
    ensures Bounded(p, AddEach(p, actor, targets, role), actor in p.admins)
  {
    hide Bounded, FromGrant, Add, RolesResolve;
    if targets == [] {
      Itself(p);
    } else {
      AddEachBounded(p, actor, targets[..|targets| - 1], role);
      AddBounded(p, AddEach(p, actor, targets[..|targets| - 1], role), actor, targets[|targets| - 1], role, None);
    }
  }

  lemma RemoveBounded(p: Desk, q: Desk, admin: bool, gone: set<Holding>)
    requires Bounded(p, q, admin)
    ensures Bounded(p, q.(grants := q.grants - gone), admin)
  {
    hide FromGrant;
  }

  lemma {:induction false} RolesBounded(p: Desk, d: Draft, actor: UserId, target: UserId, roles: seq<RoleId>,
      have: set<Holding>)
    requires Bounded(p, d.desk, actor in p.admins)
    requires forall i | 0 <= i < |roles| :: roles[i] in p.roles && (actor in p.admins || FromGrant(p, roles[i], None))
    ensures Bounded(p, WriteRoles(d, actor, target, roles, have).desk, actor in p.admins)
  {
    hide Bounded, FromGrant, Add;
    if roles != [] {
      var front := roles[..|roles| - 1];
      assert forall i | 0 <= i < |front| :: front[i] == roles[i];
      RolesBounded(p, d, actor, target, front, have);
      var e := WriteRoles(d, actor, target, front, have);
      RemoveBounded(p, e.desk, actor in p.admins, e.deleted);
      AddBounded(p, Flushed(e), actor, target, roles[|roles| - 1], None);
    }
  }

  lemma {:induction false} ItemsBounded(p: Desk, actor: UserId, target: UserId, items: seq<Item>)
    requires RolesResolve(p) && BatchAllowed(p, actor, target, items)
    ensures Bounded(p, ApplyItems(p, actor, target, items).desk, actor in p.admins)
  {
    hide Bounded, FromGrant, Add, RolesResolve, Ceiling, WriteRoles, Unwanted;
    if items == [] {
      Itself(p);
    } else {
      var n := |items| - 1;
      var item := items[n];
      assert forall i | 0 <= i < n :: items[..n][i] == items[i];
      ItemsBounded(p, actor, target, items[..n]);
      var d := ApplyItems(p, actor, target, items[..n]);
      assert ItemAllowed(p, actor, target, item);
      forall i | 0 <= i < |item.roles|
        ensures item.roles[i] in p.roles && (actor in p.admins || FromGrant(p, item.roles[i], None))
      {
        CeilingBounds(p, actor, target, item.roles[i], None);
      }
      RolesBounded(p, Mark(d, target, item), actor, target, item.roles, d.desk.grants.Keys);
    }
  }

  lemma {:induction false} SeedBounded(p: Desk, actor: UserId, user: UserId, roles: seq<RoleId>)
    requires RolesResolve(p)
    ensures var s := Seed(p, actor, user, roles); s.Some? ==> Bounded(p, s.value, actor in p.admins)
  {
    hide FromGrant, Add, RolesResolve, Ceiling;
    if roles == [] {
      Itself(p);
    } else {
      var n := |roles| - 1;
      SeedBounded(p, actor, user, roles[..n]);
      var s := Seed(p, actor, user, roles[..n]);
      if s.Some? && roles[n] in s.value.roles && Ceiling(s.value, actor, user, roles[n], None).None? {
        CeilingBounds(s.value, actor, user, roles[n], None);
        if actor !in p.admins {
          EarlierGrant(p, s.value, roles[n], None);
        }
        AddBounded(p, s.value, actor, user, roles[n], None);
      }
    }
  }

  predicate ByAdmin(p: Desk, step: Step) {
    match step
    case Create(actor, _, _, _) => actor in p.admins
    case Bulk(actor, _, _) => actor in p.admins
    case Batch(actor, _, _) => actor in p.admins
    case NewPerson(actor, _, _) => actor in p.admins
    case _ => false
  }

  lemma StepBounded(p: Desk, step: Step)
    requires RolesResolve(p)
    ensures Derived(p, Next(p, step), ByAdmin(p, step))
  {
    Itself(p);
    hide RolesResolve, Derived, FromGrant, Ceiling, Add, AddEach, ApplyItems, Seed;
    match step
    case Create(actor, target, role, expiry) =>
      if role in p.roles && Ceiling(p, actor, target, role, expiry).None? {
        CeilingBounds(p, actor, target, role, expiry);
        AddBounded(p, p, actor, target, role, expiry);
      }
    case Bulk(actor, targets, role) =>
      if AllWithin(p, actor, targets, role) {
        if targets == [] {
          assert AddEach(p, actor, targets, role) == p;
        } else {
          CeilingBounds(p, actor, targets[0], role, None);
          AddEachBounded(p, actor, targets, role);
        }
      }
    case Batch(actor, target, items) =>
      if BatchAllowed(p, actor, target, items) {
        ItemsBounded(p, actor, target, items);
        var d := ApplyItems(p, actor, target, items);
        RemoveBounded(p, d.desk, actor in p.admins, d.deleted);
      }
    case NewPerson(actor, user, roles) => SeedBounded(p, actor, user, roles);
    case Revoke(h) => RemoveBounded(p, p, false, {h});
    case Reorganise(admins, reach) => ReorganiseDerived(p, admins, reach);
    case Tick(elapsed) => TickBounded(p, elapsed);
  }

  lemma TickBounded(p: Desk, elapsed: nat)
    requires RolesResolve(p)
    ensures Bounded(p, p.(now := p.now + elapsed), false)
  {
    Itself(p);
  }

  lemma ReorganiseDerived(p: Desk, admins: set<UserId>, reach: set<(UserId, UserId)>)
    requires RolesResolve(p)
    ensures Derived(p, p.(admins := admins, reach := reach), false)
  {
    Itself(p);
  }

  lemma DerivedResolves(p: Desk, q: Desk, admin: bool)
    requires Derived(p, q, admin)
    ensures RolesResolve(q)
  {}

  // ---------------------------------------------------------------- whole runs

  // Tracing survives a bounded step: an administrator's grants are sanctioned, the others rest on
  // grants that were traced already.
  lemma DerivedTraced(p: Desk, q: Desk, admin: bool)
    requires AllTraced(p) && Derived(p, q, admin)
    ensures AllTraced(q)
  {
    forall h | h in q.grants ensures Traced(q, h.role, q.grants[h]) {
      if FromGrant(p, h.role, q.grants[h]) {
        var k :| k in p.grants && Covers(p.roles, k.role, p.grants[k], h.role, q.grants[h]);
        assert Traced(p, k.role, p.grants[k]);
        var s :| s in p.sanctioned && Covers(p.roles, s.0, s.1, k.role, p.grants[k]);
        assert Covers(q.roles, s.0, s.1, h.role, q.grants[h]);
      } else {
        assert Covers(q.roles, h.role, q.grants[h], h.role, q.grants[h]);
        assert (h.role, q.grants[h]) in q.sanctioned;
      }
    }
  }

  lemma StepKeepsTraced(p: Desk, step: Step)
    requires AllTraced(p)
    ensures AllTraced(Next(p, step))
  {
    assert RolesResolve(p);
    hide Next, RolesResolve, AllTraced, Derived;
    StepBounded(p, step);
    DerivedTraced(p, Next(p, step), ByAdmin(p, step));
  }

  // Delegation never amplifies: in every run each grant still traces to one that was there at the
  // start or that a platform administrator issued, on the same service, with at least its
  // permissions and an expiry no earlier.
  lemma {:induction false} DelegationTraces(p: Desk, steps: seq<Step>)
    requires AllTraced(p)
    ensures AllTraced(Run(p, steps))
  {
    hide AllTraced, Next;
    if steps != [] {
      DelegationTraces(p, steps[..|steps| - 1]);
      StepKeepsTraced(Run(p, steps[..|steps| - 1]), steps[|steps| - 1]);
    }
  }

  lemma DerivedExercise(p: Desk, q: Desk, service: ServiceId, permission: string, t: Instant)
    requires Derived(p, q, false) && CanExercise(q, service, permission, t)
    ensures CanExercise(p, service, permission, t)
  {
    var h :| h in q.grants && LiveAt(q.grants[h], t) && h.role in q.roles && q.roles[h.role].service == service
      && permission in q.roles[h.role].permissions;
    assert FromGrant(p, h.role, q.grants[h]);
    var k :| k in p.grants && Covers(p.roles, k.role, p.grants[k], h.role, q.grants[h]);
    assert LiveAt(p.grants[k], t);
  }

  // No step of the run is that of somebody who is a platform administrator by then.
  ghost predicate OnlyDelegates(p: Desk, steps: seq<Step>) {
    forall i | 0 <= i < |steps| :: !ByAdmin(Run(p, steps[..i]), steps[i])
  }

  // Without an administrator nothing becomes possible, at any future time, that was not already.
  lemma {:induction false} NothingNewIsExercised(p: Desk, steps: seq<Step>, service: ServiceId, permission: string,
      t: Instant)
    requires RolesResolve(p) && OnlyDelegates(p, steps)
    requires CanExercise(Run(p, steps), service, permission, t)
    ensures CanExercise(p, service, permission, t)
  {
    hide Derived, CanExercise, Next, ByAdmin, RolesResolve;
    RunResolves(p, steps);
    if steps != [] {
      var n := |steps| - 1;
      RunResolves(p, steps[..n]);
      var q := Run(p, steps[..n]);
      StepBounded(q, steps[n]);
      assert !ByAdmin(q, steps[n]);
      assert forall i | 0 <= i < n :: steps[..n][..i] == steps[..i] && steps[..n][i] == steps[i];
      DerivedExercise(q, Run(p, steps), service, permission, t);
      NothingNewIsExercised(p, steps[..n], service, permission, t);
    }
  }

  lemma {:induction false} RunResolves(p: Desk, steps: seq<Step>)
    requires RolesResolve(p)
    ensures RolesResolve(Run(p, steps))
  {
    if steps != [] {
      var q := Run(p, steps[..|steps| - 1]);
      RunResolves(p, steps[..|steps| - 1]);
      StepBounded(q, steps[|steps| - 1]);
      hide Next, RolesResolve;
      DerivedResolves(q, Run(p, steps), ByAdmin(q, steps[|steps| - 1]));
    }
  }

  // ---------------------------------------------------------------- the handlers, row by row

  class GrantDesk {
    var now: Instant
    var admins: set<UserId>
    var reach: set<(UserId, UserId)>
    var roles: map<RoleId, Role>
    var grants: map<Holding, Option<Instant>>
    var sanctioned: set<(RoleId, Option<Instant>)>

    function View(): Desk
      reads this
    {
      Desk(now, admins, reach, roles, grants, sanctioned)
    }

    constructor (p: Desk)
      ensures View() == p
    {
      now, admins, reach, roles, grants, sanctioned := p.now, p.admins, p.reach, p.roles, p.grants, p.sanctioned;
    }

    method Insert(actor: UserId, target: UserId, role: RoleId, expiry: Option<Instant>) returns (added: bool)
      modifies this`grants, this`sanctioned
      ensures View() == Add(old(View()), actor, target, role, expiry)
      ensures added <==> Holding(target, role) !in old(grants)
    {
      if Holding(target, role) in grants {
        return false;
      }
      grants := grants[Holding(target, role) := expiry];
      if actor in admins {
        sanctioned := sanctioned + {(role, expiry)};
      }
      return true;
    }

    // create_grant; false is a role that does not exist or is held already.
    method CreateGrant(actor: UserId, target: UserId, role: RoleId, expiry: Option<Instant>)
      returns (r: Result<bool, Refusal>)
      modifies this`grants, this`sanctioned
      ensures View() == DoCreate(old(View()), actor, target, role, expiry)
      ensures r == (if role !in old(roles) then Ok(false)
                    else match Ceiling(old(View()), actor, target, role, expiry)
                         case Some(refusal) => Err(refusal)
                         case None => Ok(Holding(target, role) !in old(grants)))
    {
      if role !in roles {
        return Ok(false);
      }
      var refusal := Ceiling(View(), actor, target, role, expiry);
      if refusal.Some? {
        return Err(refusal.value);
      }
      var added := Insert(actor, target, role, expiry);
      return Ok(added);
    }

    // bulk_grants without `preview`: every target is checked before any row is written.
    method BulkGrants(actor: UserId, targets: seq<UserId>, role: RoleId) returns (allowed: bool)
      modifies this`grants, this`sanctioned
      ensures View() == DoBulk(old(View()), actor, targets, role)
      ensures allowed <==> AllWithin(old(View()), actor, targets, role)
    {
      hide Add, Ceiling;
      if role !in roles {
        return false;
      }
      for i := 0 to |targets|
        invariant View() == old(View())
        invariant forall k | 0 <= k < i :: Ceiling(View(), actor, targets[k], role, None).None?
      {
        var refusal := Ceiling(View(), actor, targets[i], role, None);
        if refusal.Some? {
          return false;
        }
      }
      for i := 0 to |targets|
        invariant View() == AddEach(old(View()), actor, targets[..i], role)
      {
        var added := Insert(actor, targets[i], role, None);
        assert targets[..i + 1][..i] == targets[..i];
      }
      assert targets[..|targets|] == targets;
      return true;
    }

    method CheckItem(actor: UserId, target: UserId, item: Item) returns (allowed: bool)
      ensures allowed <==> ItemAllowed(View(), actor, target, item)
    {
      hide Ceiling;
      if item.roles == [] {
        return false;
      }
      for i := 0 to |item.roles|
        invariant forall k | 0 <= k < i ::
            item.roles[k] in roles && roles[item.roles[k]].service == item.service
            && Ceiling(View(), actor, target, item.roles[k], None).None?
      {
        if item.roles[i] !in roles || roles[item.roles[i]].service != item.service {
          return false;
        }
        var refusal := Ceiling(View(), actor, target, item.roles[i], None);
        if refusal.Some? {
          return false;
        }
      }
      return item.replace_ ==> item.mayReplace;
    }

    // One item of a batch; what it marks for deletion goes with the next row that is added.
    method WriteItem(actor: UserId, target: UserId, item: Item, marked: set<Holding>) returns (deleted: set<Holding>)
      modifies this`grants, this`sanctioned
      ensures Draft(View(), deleted) == ApplyItem(Draft(old(View()), marked), actor, target, item)
    {
      hide Add;
      var have := grants.Keys;
      deleted := marked;
      if item.replace_ {
        deleted := deleted + Unwanted(View(), target, item);
      }
      ghost var d := Mark(Draft(View(), marked), target, item);
      for i := 0 to |item.roles|
        invariant Draft(View(), deleted) == WriteRoles(d, actor, target, item.roles[..i], have)
      {
        assert item.roles[..i + 1][..i] == item.roles[..i];
        if Holding(target, item.roles[i]) in have {
          continue;
        }
        grants := grants - deleted;
        deleted := {};
        var added := Insert(actor, target, item.roles[i], None);
      }
      assert item.roles[..|item.roles|] == item.roles;
    }

    // batch_grants
    method BatchGrants(actor: UserId, target: UserId, items: seq<Item>) returns (allowed: bool)
      modifies this`grants, this`sanctioned
      ensures View() == DoBatch(old(View()), actor, target, items)
      ensures allowed <==> BatchAllowed(old(View()), actor, target, items)
    {
      hide ItemAllowed, ApplyItem;
      for i := 0 to |items|
        invariant View() == old(View())
        invariant forall k | 0 <= k < i :: ItemAllowed(View(), actor, target, items[k])
      {
        var ok := CheckItem(actor, target, items[i]);
        if !ok {
          return false;
        }
      }
      var deleted: set<Holding> := {};
      for i := 0 to |items|
        invariant Draft(View(), deleted) == ApplyItems(old(View()), actor, target, items[..i])
      {
        deleted := WriteItem(actor, target, items[i], deleted);
        assert items[..i + 1][..i] == items[..i];
      }
      assert items[..|items|] == items;
      grants := grants - deleted;
      return true;
    }

    // The grants part of create_person; a refusal rolls back the rows already added.
    method SeedGrants(actor: UserId, user: UserId, wanted: seq<RoleId>) returns (done: bool)
      modifies this`grants, this`sanctioned
      ensures View() == DoNewPerson(old(View()), actor, user, wanted)
      ensures done <==> Seed(old(View()), actor, user, wanted).Some?
    {
      hide Ceiling, Add;
      var savepoint := grants;
      var sanctionedBefore := sanctioned;
      done := true;
      for i := 0 to |wanted|
        invariant Seed(old(View()), actor, user, wanted[..i]) == Some(View())
      {
        assert wanted[..i + 1][..i] == wanted[..i];
        var role := wanted[i];
        var refused := role !in roles || Holding(user, role) in grants;
        if !refused {
          var refusal := Ceiling(View(), actor, user, role, None);
          refused := refusal.Some?;
        }
        if refused {
          SeedFails(old(View()), actor, user, wanted, i + 1);
          grants, sanctioned := savepoint, sanctionedBefore;
          return false;
        }
        var added := Insert(actor, user, role, None);
      }
      assert wanted[..|wanted|] == wanted;
    }
  }

  // A refusal part of the way is a refusal of the whole.
  lemma {:induction false} SeedFails(p: Desk, actor: UserId, user: UserId, roles: seq<RoleId>, n: int)
    requires 0 <= n <= |roles| && Seed(p, actor, user, roles[..n]).None?
    ensures Seed(p, actor, user, roles).None?
  {
    hide Ceiling, Add;
    if n == |roles| {
      assert roles[..n] == roles;
    } else {
      var front := roles[..|roles| - 1];
      assert front[..n] == roles[..n];
      SeedFails(p, actor, user, front, n);
    }
  }
}
