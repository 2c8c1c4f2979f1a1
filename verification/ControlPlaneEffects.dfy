/** What each handler of the control plane changes, whom it cuts off, and that it cuts off nobody else
    (backend/app/routers/platform.py, backend/app/routers/people.py, backend/app/routers/agent.py:422-426,
    backend/app/roles_io.py:67-81). */
module ControlPlaneEffects {
  import opened Options
  import opened ControlPlane

  // A subject row written now, for this service or for all, and kept for that long.
  ghost predicate CutOff(p: Plane, q: Plane, user: UserId, service: Option<ServiceId>, kept: int) {
    exists r :: && r in q.revocations && r.subject == user && r.service == service && r.jti.None?
                && r.revokedAt == p.now && r.purgeAfter == p.now + kept
  }

  lemma CutOffBy(p: Plane, q: Plane, user: UserId, service: Option<ServiceId>, retention: int)
    requires Cutoff(p, user, service, retention) in q.revocations
    ensures CutOff(p, q, user, service, retention)
  {
    var r := Cutoff(p, user, service, retention);
    assert r.subject == user && r.service == service && r.jti.None?;
    assert r.revokedAt == p.now && r.purgeAfter == p.now + retention;
  }

  // ---------------------------------------------------------------- each handler that takes something

  // `q` differs from `p` by these rows of the feed and otherwise only where it says.
  ghost predicate Writes(p: Plane, q: Plane, subjects: set<UserId>, service: ServiceId, kept: int) {
    && (forall u | u in subjects :: CutOff(p, q, u, Some(service), kept))
    && (forall r | r in q.revocations && r !in p.revocations ::
          r.subject in subjects && r.service == Some(service) && r.jti.None? && r.revokedAt == p.now)
    && p.revocations <= q.revocations
  }

  // Exactly the person's grants on the service outside `wanted` go; they are cut off there if any did.
  lemma ReplaceRolesMeans(p: Plane, user: UserId, service: ServiceId, wanted: set<RoleId>)
    ensures var q := DoReplaceRoles(p, user, service, wanted);
            && q.grants.Keys <= p.grants.Keys && (forall id | id in q.grants :: q.grants[id] == p.grants[id])
            && (forall id | id in p.grants ::
                  id !in q.grants <==>
                    p.grants[id].user == user && p.grants[id].service == service && p.grants[id].role !in wanted)
            && Writes(p, q, if q.grants == p.grants then {} else {user}, service, 2 * 60 * 60 * SECOND)
            && q == p.(grants := q.grants, revocations := q.revocations)
  {
    var q := DoReplaceRoles(p, user, service, wanted);
    assert forall id :: id in Unwanted(p, user, service, wanted) <==>
        id in p.grants && p.grants[id].user == user && p.grants[id].service == service && p.grants[id].role !in wanted;
    if id :| id in Unwanted(p, user, service, wanted) {
      assert id in p.grants && id !in q.grants;
      CutOffBy(p, q, user, Some(service), 2 * HOUR);
    } else {
      assert Unwanted(p, user, service, wanted) == {};
    }
  }

  lemma DeleteGrantMeans(p: Plane, id: GrantId)
    ensures var q := DoDeleteGrant(p, id);
            && q.grants == p.grants - {id}
            && (if id in p.grants then Writes(p, q, {p.grants[id].user}, p.grants[id].service, 2 * 60 * 60 * SECOND)
                else q.revocations == p.revocations)
            && q == p.(grants := q.grants, revocations := q.revocations)
  {
    if id in p.grants {
      CutOffBy(p, DoDeleteGrant(p, id), p.grants[id].user, Some(p.grants[id].service), 2 * HOUR);
    } else {
      assert p.grants - {id} == p.grants;
    }
  }

  // A grant moves to a role of its service that its holder does not have yet, and keeps its expiry.
  lemma MoveGrantMeans(p: Plane, id: GrantId, role: RoleId)
    ensures var q := DoMoveGrant(p, id, role);
            if id in p.grants && role in p.roles && p.roles[role].service == p.grants[id].service
               && forall k | k in p.grants && p.grants[k].user == p.grants[id].user :: p.grants[k].role != role
            then
              && q.grants.Keys == p.grants.Keys && (forall k | k in p.grants && k != id :: q.grants[k] == p.grants[k])
              && q.grants[id] == Grant(p.grants[id].user, p.grants[id].service, role, p.grants[id].expiresAt)
              && Writes(p, q, {p.grants[id].user}, p.grants[id].service, 2 * 60 * 60 * SECOND)
              && q == p.(grants := q.grants, revocations := q.revocations)
            else q == p
  {
    var q := DoMoveGrant(p, id, role);
    if q != p {
      CutOffBy(p, q, p.grants[id].user, Some(p.grants[id].service), 2 * HOUR);
    }
  }

  // A changed permission list cuts off everyone who holds the role.
  lemma PatchRoleMeans(p: Plane, role: RoleId, permissions: seq<string>)
    requires role in p.roles
    ensures var q := DoPatchRole(p, role, permissions);
            var holders := set id | id in p.grants && p.grants[id].role == role :: p.grants[id].user;
            && q.roles == p.roles[role := Role(p.roles[role].service, p.roles[role].key, permissions)]
            && Writes(p, q, if p.roles[role].permissions == permissions then {} else holders, p.roles[role].service,
                      2 * 60 * 60 * SECOND)
            && q == p.(roles := q.roles, revocations := q.revocations)
  {
    var q := DoPatchRole(p, role, permissions);
    if p.roles[role].permissions != permissions {
      forall u | u in Holders(p, role) ensures CutOff(p, q, u, Some(p.roles[role].service), 2 * HOUR) {
        CutOffBy(p, q, u, Some(p.roles[role].service), 2 * HOUR);
      }
    } else {
      assert p.roles[role := p.roles[role]] == p.roles;
    }
  }

  // Switching a service off cuts off everyone with a grant on it.
  lemma PatchServiceMeans(p: Plane, service: ServiceId, active: bool, joins: bool)
    requires service in p.services
    ensures var q := DoPatchService(p, service, active, joins);
            var off := p.services[service] && !active;
            var users := set id | id in p.grants && p.grants[id].service == service :: p.grants[id].user;
            if off && !joins then q == p
            else
              && q.services == p.services[service := active]
              && Writes(p, q, if off then users else {}, service, 24 * 60 * 60 * SECOND)
              && q == p.(services := q.services, revocations := q.revocations)
  {
    var q := DoPatchService(p, service, active, joins);
    if p.services[service] && !active && joins {
      forall u | u in ServiceUsers(p, service) ensures CutOff(p, q, u, Some(service), 24 * HOUR) {
        CutOffBy(p, q, u, Some(service), 24 * HOUR);
      }
    }
  }

  // ---------------------------------------------------------------- accounts

  // `u` is as asked, and cut off everywhere if that was to be; nobody else is touched or cut off.
  ghost predicate AccountSet(p: Plane, q: Plane, user: UserId, u: User, cut: bool, kept: int) {
    && q == p.(users := p.users[user := u], revocations := q.revocations)
    && p.revocations <= q.revocations
    && (cut ==> CutOff(p, q, user, None, kept))
    && (forall r | r in q.revocations && r !in p.revocations :: cut && r.subject == user && r.revokedAt == p.now)
  }

  lemma SwitchMeans(p: Plane, user: UserId, on: bool)
    requires user in p.users
    ensures var (u, hour) := (p.users[user], 60 * 60 * SECOND);
            && AccountSet(p, DoSetActive(p, user, on), user, User(on, u.employed), u.active && !on, 2 * hour)
            && AccountSet(p, DoSheetExit(p, user), user, User(false, u.employed), u.active, 24 * hour)
  {
    if p.users[user].active && !on {
      CutOffBy(p, DoSetActive(p, user, on), user, None, 2 * HOUR);
    }
    if p.users[user].active {
      CutOffBy(p, DoSheetExit(p, user), user, None, 24 * HOUR);
    } else {
      assert p.users[user := p.users[user]] == p.users;
    }
  }

  // These cut off whatever was the case before; a kill also names each token it is told of.
  lemma LeavingMeans(p: Plane, user: UserId, employed: bool, issues: set<Issue>)
    requires user in p.users
    ensures var (u, day) := (p.users[user], 24 * 60 * 60 * SECOND);
            && AccountSet(p, DoSetEmployed(p, user, employed), user, User(u.active, employed), true, day)
            && AccountSet(p, DoKill(p, user, issues), user, User(false, u.employed), true, day)
    ensures forall i | i in issues ::
              Revocation(user, Some(i.service), Some(i.jti), p.now, p.now + 2 * 60 * 60 * SECOND)
              in DoKill(p, user, issues).revocations
  {
    CutOffBy(p, DoSetEmployed(p, user, employed), user, None, 24 * HOUR);
    CutOffBy(p, DoKill(p, user, issues), user, None, 24 * HOUR);
  }

  // ---------------------------------------------------------------- adding, and the purge

  // A grant is added exactly when its row is new, person and role exist, the role is the service's, it is
  // not over, and the person does not have the role; a role exactly when its row and key are new; a role
  // is deleted exactly when nobody has it. None of it cuts anybody off.
  lemma AddingMeans(p: Plane, id: GrantId, g: Grant, roleId: RoleId, role: Role)
    ensures DoCreateGrant(p, id, g)
         == if id !in p.grants && g.user in p.users && g.role in p.roles && p.roles[g.role].service == g.service
               && (g.expiresAt == None || p.now < g.expiresAt.value)
               && forall k | k in p.grants && p.grants[k].user == g.user :: p.grants[k].role != g.role
            then p.(grants := p.grants[id := g]) else p
    ensures DoAddRole(p, roleId, role)
         == if roleId !in p.roles
               && forall r | r in p.roles && p.roles[r].service == role.service :: p.roles[r].key != role.key
            then p.(roles := p.roles[roleId := role]) else p
    ensures DoDeleteRole(p, roleId)
         == if forall k | k in p.grants :: p.grants[k].role != roleId
            then p.(roles := p.roles - {roleId}) else p
  {
    if k :| k in p.grants && p.grants[k].role == roleId {
      assert p.grants[k].user in Holders(p, roleId);
    } else {
      assert Holders(p, roleId) == {};
    }
    assert roleId !in p.roles ==> p.roles - {roleId} == p.roles;
  }

  lemma PurgeMeans(p: Plane)
    ensures forall r :: r in DoPurge(p).revocations <==> r in p.revocations && p.now < r.purgeAfter
    ensures DoPurge(p) == p.(revocations := DoPurge(p).revocations)
  {}

  // The feed of a service is what a purge right now would leave of its own rows and the global ones; so
  // no purge ever changes a feed.
  lemma FeedMeans(p: Plane, service: ServiceId, r: Revocation)
    ensures InFeed(p, service, r) <==> r in DoPurge(p).revocations && r.service in {None, Some(service)}
    ensures InFeed(DoPurge(p), service, r) <==> InFeed(p, service, r)
  {}
}
