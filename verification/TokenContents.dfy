/** What an issued token carries, stated over the tables: everything its subject is entitled to at that
    moment, no more, for as long as the lifetime and the shortest of those grants allow
    (backend/app/routers/tokens.py:36-118, backend/app/security.py:99-104). */
module TokenContents {
  import opened Options
  import opened Arithmetic
  import opened ControlPlane
  import opened TokenLifecycle

  // The grants that entitle the person on the service right now: theirs, there, and not over.
  function Entitling(p: Plane, user: UserId, service: ServiceId): set<GrantId> {
    set id | id in p.grants && p.grants[id].user == user && p.grants[id].service == service
      && (p.grants[id].expiresAt == None || p.now < p.grants[id].expiresAt.value)
  }

  // An active account of an active employee, an active service, and a grant that entitles.
  ghost predicate MayHaveToken(p: Plane, user: UserId, service: ServiceId) {
    && user in p.users && p.users[user] == User(true, true)
    && service in p.services && p.services[service]
    && Entitling(p, user, service) != {}
  }

  function RoleOf(p: Plane, id: GrantId): Role
    requires id in p.grants && p.grants[id].role in p.roles
  {
    p.roles[p.grants[id].role]
  }

  // The role of every one of these grants, with all it permits, is in the token.
  ghost predicate CarriesAll(p: Plane, ids: set<GrantId>, t: Token)
    requires ids <= p.grants.Keys && forall id | id in ids :: p.grants[id].role in p.roles
  {
    forall id | id in ids ::
      && RoleOf(p, id).key in t.roles
      && (forall x | x in RoleOf(p, id).permissions :: x in t.permissions)
      && id in t.sources && t.sources[id] == Source(p.grants[id], RoleOf(p, id))
  }

  // Whatever is in the token comes from one of these grants.
  ghost predicate CarriesOnly(p: Plane, ids: set<GrantId>, t: Token)
    requires ids <= p.grants.Keys && forall id | id in ids :: p.grants[id].role in p.roles
  {
    && (forall key | key in t.roles :: exists id :: id in ids && RoleOf(p, id).key == key)
    && (forall x | x in t.permissions :: exists id :: id in ids && x in RoleOf(p, id).permissions)
    && t.sources.Keys <= ids
  }

  // Issued now, it ends with its lifetime or, in the second it falls in, with the first of the grants
  // to end: no later than any of these, and with one of them.
  ghost predicate EndsInTime(p: Plane, c: Config, ids: set<GrantId>, t: Token)
    requires ids <= p.grants.Keys
  {
    && t.iat == p.now / SECOND
    && t.exp <= t.iat + c.ttl
    && (forall id | id in ids && p.grants[id].expiresAt.Some? :: t.exp <= p.grants[id].expiresAt.value / SECOND)
    && (t.exp != t.iat + c.ttl ==>
          exists id :: && id in ids && p.grants[id].expiresAt.Some?
                       && t.exp == p.grants[id].expiresAt.value / SECOND)
  }

  lemma LiveMeans(p: Plane, user: UserId, service: ServiceId)
    ensures var (live, ids) := (LiveGrants(p, user, service), Entitling(p, user, service));
            && live.Keys == ids && ids <= p.grants.Keys
            && forall id | id in ids :: live[id] == p.grants[id]
  {}

  lemma MintIff(p: Plane, user: UserId, service: ServiceId)
    ensures CanMint(p, user, service) <==> MayHaveToken(p, user, service)
  {
    LiveMeans(p, user, service);
    hide LiveGrants, Entitling;
  }

  lemma RolesResolve(p: Plane)
    requires SoundTables(p)
    ensures forall id | id in p.grants :: p.grants[id].role in p.roles
  {}

  lemma MintedCarries(p: Plane, c: Config, user: UserId, service: ServiceId, jti: nat)
    requires forall id | id in p.grants :: p.grants[id].role in p.roles
    ensures Entitling(p, user, service) <= p.grants.Keys
    ensures CarriesAll(p, Entitling(p, user, service), Minted(p, c, user, service, jti))
    ensures CarriesOnly(p, Entitling(p, user, service), Minted(p, c, user, service, jti))
  {
    LiveMeans(p, user, service);
    hide Entitling, Earliest, LiveGrants;
    var ids, t := Entitling(p, user, service), Minted(p, c, user, service, jti);
    forall key | key in t.roles ensures exists id :: id in ids && RoleOf(p, id).key == key {
      var id :| id in ids && p.roles[p.grants[id].role].key == key;
      assert RoleOf(p, id).key == key;
    }
    forall x | x in t.permissions ensures exists id :: id in ids && x in RoleOf(p, id).permissions {
      var id :| id in ids && x in p.roles[p.grants[id].role].permissions;
      assert x in RoleOf(p, id).permissions;
    }
  }

  lemma MintedEnds(p: Plane, c: Config, user: UserId, service: ServiceId, jti: nat)
    ensures Entitling(p, user, service) <= p.grants.Keys
    ensures EndsInTime(p, c, Entitling(p, user, service), Minted(p, c, user, service, jti))
  {
    LiveMeans(p, user, service);
    hide Entitling, LiveGrants, RoleKeys, Permissions;
    var ids, t := Entitling(p, user, service), Minted(p, c, user, service, jti);
    var limit := p.now + c.ttl * SECOND;
    var at := Earliest(LiveGrants(p, user, service), limit);
    hide Earliest;
    assert limit / SECOND == p.now / SECOND + c.ttl;
    QuotientMonotone(at, limit, SECOND);
    forall id | id in ids && p.grants[id].expiresAt.Some?
      ensures t.exp <= p.grants[id].expiresAt.value / SECOND
    {
      QuotientMonotone(at, p.grants[id].expiresAt.value, SECOND);
    }
  }

  // A token is issued to exactly those who may have one; it names them and the service, carries exactly
  // what the tables entitle them to, and ends in time. Issuing it changes nothing else.
  lemma TokenIsTheEntitlement(p: Plane, c: Config, user: UserId, service: ServiceId, jti: nat)
    requires SoundTables(p)
    ensures var (q, ids) := (DoMint(p, c, user, service, jti), Entitling(p, user, service));
            if MayHaveToken(p, user, service) then
              exists t :: && q == p.(tokens := p.tokens + {t})
                          && t.subject == user && t.service == service && t.jti == jti
                          && CarriesAll(p, ids, t) && CarriesOnly(p, ids, t) && EndsInTime(p, c, ids, t)
            else q == p
  {
    RolesResolve(p);
    hide SoundTables, CarriesAll, CarriesOnly, EndsInTime, MayHaveToken, CanMint;
    MintIff(p, user, service);
    MintedCarries(p, c, user, service, jti);
    MintedEnds(p, c, user, service, jti);
    assert Minted(p, c, user, service, jti).subject == user;
  }
}
