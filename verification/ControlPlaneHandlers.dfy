/** The handlers that change tables row by row, each proved to be the transaction ControlPlane states
    (backend/app/roles_io.py:67-81, backend/app/routers/platform.py, backend/app/routers/tokens.py,
    backend/app/routers/agent.py:422-426). */
module ControlPlaneHandlers {
  import opened Options
  import opened ControlPlane

  class Tables {
    const config: Config
    var now: Instant
    var users: map<UserId, User>
    var services: map<ServiceId, bool>
    var roles: map<RoleId, Role>
    var grants: map<GrantId, Grant>
    var revocations: set<Revocation>
    ghost var tokens: set<Token>

    ghost function View(): Plane
      reads this
    {
      Plane.Plane(now, users, services, roles, grants, revocations, tokens)
    }

    constructor (config: Config, now: Instant)
      ensures this.config == config
      ensures View() == Plane.Plane(now, map[], map[], map[], map[], {}, {})
    {
      this.config := config;
      this.now := now;
      users, services, roles, grants, revocations, tokens := map[], map[], map[], map[], {}, {};
    }

    // One row per subject, in any order.
    method AddCutoffs(subjects: set<UserId>, service: Option<ServiceId>, retention: int)
      modifies this`revocations
      ensures revocations == old(revocations) + Cutoffs(old(View()), subjects, service, retention)
    {
      var todo := subjects;
      while todo != {}
        invariant todo <= subjects
        invariant revocations == old(revocations) + Cutoffs(old(View()), subjects - todo, service, retention)
        decreases todo
      {
        var subject :| subject in todo;
        revocations := revocations + {Revocation(subject, service, None, now, now + retention)};
        assert subjects - (todo - {subject}) == (subjects - todo) + {subject};
        todo := todo - {subject};
      }
      assert subjects - todo == subjects;
    }

    // revoke_role_holders
    method RevokeRoleHolders(role: RoleId) returns (count: nat)
      requires role in roles
      modifies this`revocations
      ensures revocations == old(revocations)
          + Cutoffs(old(View()), Holders(old(View()), role), Some(roles[role].service), 2 * HOUR)
      ensures count == |Holders(old(View()), role)|
    {
      var subjects := set id | id in grants && grants[id].role == role :: grants[id].user;
      AddCutoffs(subjects, Some(roles[role].service), 2 * HOUR);
      count := |subjects|;
    }

    method PatchRole(role: RoleId, permissions: seq<string>) returns (found: bool)
      modifies this
      ensures found <==> role in old(roles)
      ensures View() == DoPatchRole(old(View()), role, permissions)
    {
      if role !in roles {
        return false;
      }
      var changed := roles[role].permissions != permissions;
      roles := roles[role := roles[role].(permissions := permissions)];
      if changed {
        var n := RevokeRoleHolders(role);
      }
      return true;
    }

    method PatchService(service: ServiceId, active: bool, joins: bool) returns (done: bool)
      modifies this
      ensures done <==> service in old(services) && (old(services)[service] && !active ==> joins)
      ensures View() == DoPatchService(old(View()), service, active, joins)
    {
      if service !in services {
        return false;
      }
      if services[service] && !active {
        if !joins {
          return false;
        }
        var subjects := set id | id in grants && grants[id].service == service :: grants[id].user;
        AddCutoffs(subjects, Some(service), 24 * HOUR);
      }
      services := services[service := active];
      return true;
    }

    method DeleteGrant(id: GrantId) returns (found: bool)
      modifies this
      ensures found <==> id in old(grants)
      ensures View() == DoDeleteGrant(old(View()), id)
    {
      if id !in grants {
        return false;
      }
      revocations := revocations + {Revocation(grants[id].user, Some(grants[id].service), None, now, now + 2 * HOUR)};
      grants := grants - {id};
      return true;
    }

    method RemoveGrants(gone: set<GrantId>) returns (removed: nat)
      modifies this`grants
      ensures grants == old(grants) - gone
      ensures removed == |gone|
    {
      var todo := gone;
      removed := 0;
      while todo != {}
        invariant todo <= gone
        invariant grants == old(grants) - (gone - todo)
        invariant removed == |gone - todo|
        decreases todo
      {
        var id :| id in todo;
        grants := grants - {id};
        assert gone - (todo - {id}) == (gone - todo) + {id};
        todo := todo - {id};
        removed := removed + 1;
      }
      assert gone - todo == gone;
    }

    // The removing half of batch_grants with `replace`.
    method ReplaceRoles(user: UserId, service: ServiceId, wanted: set<RoleId>) returns (revoked: nat)
      modifies this
      ensures View() == DoReplaceRoles(old(View()), user, service, wanted)
      ensures revoked == |Unwanted(old(View()), user, service, wanted)|
    {
      var gone := set id | id in grants && grants[id].user == user && grants[id].service == service
        && grants[id].role !in wanted;
      assert gone == Unwanted(View(), user, service, wanted);
      revoked := RemoveGrants(gone);
      if gone != {} {
        revocations := revocations + {Revocation(user, Some(service), None, now, now + 2 * HOUR)};
      } else {
        assert grants == old(grants);
      }
    }

    method Kill(user: UserId, issues: set<Issue>) returns (found: bool)
      modifies this
      ensures found <==> user in old(users)
      ensures View() == DoKill(old(View()), user, issues)
    {
      if user !in users {
        return false;
      }
      users := users[user := users[user].(active := false)];
      revocations := revocations + {Revocation(user, None, None, now, now + 24 * HOUR)};
      revocations := revocations + {Revocation(user, None, None, now, now + 2 * HOUR)};
      ghost var before := revocations;
      var todo := issues;
      while todo != {}
        invariant todo <= issues
        invariant revocations == before + JtiRows(old(View()), user, issues - todo)
        invariant now == old(now) && services == old(services) && roles == old(roles) && grants == old(grants)
        invariant users == old(users)[user := old(users)[user].(active := false)] && tokens == old(tokens)
        decreases todo
      {
        var issue :| issue in todo;
        revocations := revocations + {Revocation(user, Some(issue.service), Some(issue.jti), now, now + 2 * HOUR)};
        assert issues - (todo - {issue}) == (issues - todo) + {issue};
        todo := todo - {issue};
      }
      assert issues - todo == issues;
      return true;
    }

    method Purge() returns (removed: nat)
      modifies this`revocations
      ensures View() == DoPurge(old(View()))
      ensures removed == |old(revocations)| - |revocations|
    {
      var kept := set r | r in revocations && r.purgeAfter > now;
      assert revocations == kept + (revocations - kept);
      removed := |revocations - kept|;
      revocations := kept;
    }

    // The earlier of `limit` and every expiry, which is exp.
    static method ExpiryOf(live: map<GrantId, Grant>, limit: Instant) returns (expiry: Instant)
      ensures expiry == Earliest(live, limit)
    {
      expiry := limit;
      var todo := live.Keys;
      while todo != {}
        invariant todo <= live.Keys
        invariant expiry <= limit
        invariant forall id | id in live.Keys - todo && live[id].expiresAt.Some? :: expiry <= live[id].expiresAt.value
        invariant expiry == limit || exists id :: id in live && live[id].expiresAt == Some(expiry)
        decreases todo
      {
        var id :| id in todo;
        if live[id].expiresAt.Some? && live[id].expiresAt.value < expiry {
          expiry := live[id].expiresAt.value;
        }
        todo := todo - {id};
      }
    }

    // What POST /token/service signs, or None for a refusal.
    method IssueToken(user: UserId, service: ServiceId, jti: nat) returns (token: Option<Token>)
      modifies this`tokens
      ensures View() == DoMint(old(View()), config, user, service, jti)
      ensures token.Some? <==> CanMint(old(View()), user, service)
      ensures token.Some? ==> token.value == Minted(old(View()), config, user, service, jti)
    {
      hide Earliest, RoleKeys, Permissions;
      var live := map id | id in grants && grants[id].user == user && grants[id].service == service
        && Unexpired(grants[id], now) :: grants[id];
      assert live == LiveGrants(View(), user, service);
      if !(user in users && users[user].active && users[user].employed && service in services && services[service]
          && live != map[]) {
        return None;
      }
      var expiry := ExpiryOf(live, now + config.ttl * SECOND);
      var t := Token(user, service, RoleKeys(roles, live), Permissions(roles, live), jti, now / SECOND, expiry / SECOND,
                     map id | id in live && live[id].role in roles :: Source(live[id], roles[live[id].role]));
      tokens := tokens + {t};
      return Some(t);
    }
  }
}
