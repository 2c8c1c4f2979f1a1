/** Grants, roles, minted service tokens and the revocation feed: each handler as one transaction
    (backend/app/routers/tokens.py, backend/app/security.py, backend/app/routers/agent.py,
    backend/app/routers/platform.py, backend/app/routers/people.py, backend/app/roles_io.py,
    backend/app/authorization.py). */
module ControlPlane {
  import opened Options

  // Microseconds since the epoch; token claims are whole seconds (RFC 7519, section 2, NumericDate).
  type Instant = int

  type UserId = nat
  type ServiceId = nat
  type RoleId = nat
  type GrantId = nat

  const SECOND: int := 1_000_000
  const HOUR: int := 3600 * SECOND
  const MAX_TTL: int := 900
  const MAX_SKEW: int := 60

  datatype Config = Config(ttl: int, skew: int)

  ghost predicate ValidConfig(c: Config) {
    0 < c.ttl <= MAX_TTL && 0 <= c.skew <= MAX_SKEW
  }

  datatype User = User(active: bool, employed: bool)

  datatype Role = Role(service: ServiceId, key: string, permissions: seq<string>)

  datatype Grant = Grant(user: UserId, service: ServiceId, role: RoleId, expiresAt: Option<Instant>)

  // `service` None is a global cutoff; a row with a jti names one token only.
  datatype Revocation = Revocation(subject: UserId, service: Option<ServiceId>, jti: Option<nat>,
                                   revokedAt: Instant, purgeAfter: Instant)

  datatype Source = Source(grant: Grant, role: Role)

  // `sources` remembers the grants the token was built from, with their roles; it is not a claim.
  datatype Token = Token(subject: UserId, service: ServiceId, roles: set<string>, permissions: set<string>,
                         jti: nat, iat: int, exp: int, sources: map<GrantId, Source>)

  // A token issue the audit log still remembers.
  datatype Issue = Issue(service: ServiceId, jti: nat)

  datatype Plane = Plane(
    now: Instant,
    users: map<UserId, User>,
    services: map<ServiceId, bool>,
    roles: map<RoleId, Role>,
    grants: map<GrantId, Grant>,
    revocations: set<Revocation>,
    tokens: set<Token>)

  // ---------------------------------------------------------------- minting

  predicate Unexpired(g: Grant, now: Instant) {
    g.expiresAt.None? || g.expiresAt.value > now
  }

  function LiveGrants(p: Plane, user: UserId, service: ServiceId): map<GrantId, Grant> {
    map id | id in p.grants && p.grants[id].user == user && p.grants[id].service == service
      && Unexpired(p.grants[id], p.now) :: p.grants[id]
  }

  function RoleKeys(roles: map<RoleId, Role>, grants: map<GrantId, Grant>): set<string> {
    set id | id in grants && grants[id].role in roles :: roles[grants[id].role].key
  }

  function Permissions(roles: map<RoleId, Role>, grants: map<GrantId, Grant>): set<string> {
    set id, x | id in grants && grants[id].role in roles && x in roles[grants[id].role].permissions :: x
  }

  predicate CanMint(p: Plane, user: UserId, service: ServiceId) {
    && user in p.users && p.users[user].active && p.users[user].employed
    && service in p.services && p.services[service]
    && LiveGrants(p, user, service) != map[]
  }

  // The earlier of `limit` and every expiry.
  ghost function Earliest(grants: map<GrantId, Grant>, limit: Instant): (at: Instant)
    ensures at <= limit
    ensures forall id | id in grants && grants[id].expiresAt.Some? :: at <= grants[id].expiresAt.value
    ensures at == limit || exists id :: id in grants && grants[id].expiresAt == Some(at)
    decreases |grants|
  {
    if grants == map[] then limit
    else
      var id :| id in grants;
      var rest := grants - {id};
      assert |rest| < |grants| by { assert rest.Keys == grants.Keys - {id}; }
      var r := Earliest(rest, limit);
      assert forall k | k in grants && k != id :: k in rest && rest[k] == grants[k];
      if grants[id].expiresAt.Some? && grants[id].expiresAt.value < r then grants[id].expiresAt.value else r
  }

  ghost function Minted(p: Plane, c: Config, user: UserId, service: ServiceId, jti: nat): Token {
    var grants := LiveGrants(p, user, service);
    Token(user, service, RoleKeys(p.roles, grants), Permissions(p.roles, grants), jti,
          p.now / SECOND, Earliest(grants, p.now + c.ttl * SECOND) / SECOND,
          map id | id in grants && grants[id].role in p.roles :: Source(grants[id], p.roles[grants[id].role]))
  }

  // ---------------------------------------------------------------- the handlers

  function Cutoff(p: Plane, subject: UserId, service: Option<ServiceId>, retention: int): Revocation {
    Revocation(subject, service, None, p.now, p.now + retention)
  }

  ghost function DoMint(p: Plane, c: Config, user: UserId, service: ServiceId, jti: nat): Plane {
    if CanMint(p, user, service) then p.(tokens := p.tokens + {Minted(p, c, user, service, jti)}) else p
  }

  predicate Holds(p: Plane, user: UserId, role: RoleId) {
    exists id :: id in p.grants && p.grants[id].user == user && p.grants[id].role == role
  }

  function DoCreateGrant(p: Plane, id: GrantId, g: Grant): Plane {
    if && id !in p.grants && g.user in p.users && g.role in p.roles && p.roles[g.role].service == g.service
       && Unexpired(g, p.now) && !Holds(p, g.user, g.role)
    then p.(grants := p.grants[id := g])
    else p
  }

  function DoDeleteGrant(p: Plane, id: GrantId): Plane {
    if id in p.grants then
      p.(grants := p.grants - {id},
         revocations := p.revocations + {Cutoff(p, p.grants[id].user, Some(p.grants[id].service), 2 * HOUR)})
    else p
  }

  // The removing half of a role replacement: every grant of the person on the service outside `wanted`.
  function Unwanted(p: Plane, user: UserId, service: ServiceId, wanted: set<RoleId>): set<GrantId> {
    set id | id in p.grants && p.grants[id].user == user && p.grants[id].service == service
      && p.grants[id].role !in wanted
  }

  function DoReplaceRoles(p: Plane, user: UserId, service: ServiceId, wanted: set<RoleId>): Plane {
    var gone := Unwanted(p, user, service, wanted);
    if gone == {} then p
    else p.(grants := p.grants - gone,
            revocations := p.revocations + {Cutoff(p, user, Some(service), 2 * HOUR)})
  }

  // The role file and the people sheet move a grant in place; its expiry stays.
  function DoMoveGrant(p: Plane, id: GrantId, role: RoleId): Plane {
    if && id in p.grants && role in p.roles && p.roles[role].service == p.grants[id].service
       && !Holds(p, p.grants[id].user, role)
    then
      p.(grants := p.grants[id := p.grants[id].(role := role)],
         revocations := p.revocations + {Cutoff(p, p.grants[id].user, Some(p.grants[id].service), 2 * HOUR)})
    else p
  }

  function Holders(p: Plane, role: RoleId): set<UserId> {
    set id | id in p.grants && p.grants[id].role == role :: p.grants[id].user
  }

  function Cutoffs(p: Plane, subjects: set<UserId>, service: Option<ServiceId>, retention: int): set<Revocation> {
    set u | u in subjects :: Cutoff(p, u, service, retention)
  }

  function DoPatchRole(p: Plane, role: RoleId, permissions: seq<string>): Plane {
    if role in p.roles && p.roles[role].permissions != permissions then
      p.(roles := p.roles[role := p.roles[role].(permissions := permissions)],
         revocations := p.revocations + Cutoffs(p, Holders(p, role), Some(p.roles[role].service), 2 * HOUR))
    else p
  }

  function DoAddRole(p: Plane, id: RoleId, role: Role): Plane {
    if id !in p.roles && forall r | r in p.roles :: !(p.roles[r].service == role.service && p.roles[r].key == role.key)
    then p.(roles := p.roles[id := role])
    else p
  }

  function DoDeleteRole(p: Plane, role: RoleId): Plane {
    if role in p.roles && Holders(p, role) == {} then p.(roles := p.roles - {role}) else p
  }

  function ServiceUsers(p: Plane, service: ServiceId): set<UserId> {
    set id | id in p.grants && p.grants[id].service == service :: p.grants[id].user
  }

  // `joins` is whether the mapper accepts the join of users and grants that finds the holders; two
  // foreign keys connect the tables, and where it refuses the handler fails with nothing changed.
  function DoPatchService(p: Plane, service: ServiceId, active: bool, joins: bool): Plane {
    if service !in p.services || (p.services[service] && !active && !joins) then p
    else p.(services := p.services[service := active],
            revocations := if p.services[service] && !active
                           then p.revocations + Cutoffs(p, ServiceUsers(p, service), Some(service), 24 * HOUR)
                           else p.revocations)
  }

  // update_user and patch_account.
  function DoSetActive(p: Plane, user: UserId, active: bool): Plane {
    if user !in p.users then p
    else p.(users := p.users[user := p.users[user].(active := active)],
            revocations := if p.users[user].active && !active
                           then p.revocations + {Cutoff(p, user, None, 2 * HOUR)} else p.revocations)
  }

  // A people-sheet row saying `exited`.
  function DoSheetExit(p: Plane, user: UserId): Plane {
    if !(user in p.users && p.users[user].active) then p
    else p.(users := p.users[user := p.users[user].(active := false)],
            revocations := p.revocations + {Cutoff(p, user, None, 24 * HOUR)})
  }

  function JtiRows(p: Plane, user: UserId, issues: set<Issue>): set<Revocation> {
    set i | i in issues :: Revocation(user, Some(i.service), Some(i.jti), p.now, p.now + 2 * HOUR)
  }

  function DoKill(p: Plane, user: UserId, issues: set<Issue>): Plane {
    if user !in p.users then p
    else p.(users := p.users[user := p.users[user].(active := false)],
            revocations := p.revocations + {Cutoff(p, user, None, 24 * HOUR), Cutoff(p, user, None, 2 * HOUR)}
              + JtiRows(p, user, issues))
  }

  function DoSetEmployed(p: Plane, user: UserId, employed: bool): Plane {
    if user !in p.users then p
    else p.(users := p.users[user := p.users[user].(employed := employed)],
            revocations := p.revocations + {Cutoff(p, user, None, 24 * HOUR)})
  }

  function DoPurge(p: Plane): Plane {
    p.(revocations := set r | r in p.revocations && r.purgeAfter > p.now)
  }

  datatype Step =
    | Mint(user: UserId, service: ServiceId, jti: nat)
    | CreateGrant(id: GrantId, grant: Grant)
    | DeleteGrant(id: GrantId)
    | ReplaceRoles(user: UserId, service: ServiceId, wanted: set<RoleId>)
    | MoveGrant(id: GrantId, role: RoleId)
    | PatchRole(role: RoleId, permissions: seq<string>)
    | AddRole(roleId: RoleId, newRole: Role)
    | DeleteRole(role: RoleId)
    | PatchService(service: ServiceId, active: bool, joins: bool)
    | SetActive(user: UserId, active: bool)
    | SheetExit(user: UserId)
    | Kill(user: UserId, issues: set<Issue>)
    | SetEmployed(user: UserId, employed: bool)
    | Purge
    | Tick(elapsed: nat)

  ghost function Next(p: Plane, c: Config, step: Step): Plane {
    match step
    case Mint(user, service, jti) => DoMint(p, c, user, service, jti)
    case CreateGrant(id, grant) => DoCreateGrant(p, id, grant)
    case DeleteGrant(id) => DoDeleteGrant(p, id)
    case ReplaceRoles(user, service, wanted) => DoReplaceRoles(p, user, service, wanted)
    case MoveGrant(id, role) => DoMoveGrant(p, id, role)
    case PatchRole(role, permissions) => DoPatchRole(p, role, permissions)
    case AddRole(id, role) => DoAddRole(p, id, role)
    case DeleteRole(role) => DoDeleteRole(p, role)
    case PatchService(service, active, joins) => DoPatchService(p, service, active, joins)
    case SetActive(user, active) => DoSetActive(p, user, active)
    case SheetExit(user) => DoSheetExit(p, user)
    case Kill(user, issues) => DoKill(p, user, issues)
    case SetEmployed(user, employed) => DoSetEmployed(p, user, employed)
    case Purge => DoPurge(p)
    case Tick(elapsed) => p.(now := p.now + elapsed)
  }

  ghost function Run(p: Plane, c: Config, steps: seq<Step>): Plane
    decreases |steps|
  {
    if steps == [] then p else Run(Next(p, c, steps[0]), c, steps[1..])
  }

  // ---------------------------------------------------------------- what a service sees

  predicate InFeed(p: Plane, service: ServiceId, r: Revocation) {
    r in p.revocations && r.purgeAfter > p.now && (r.service.None? || r.service.value == service)
  }

  // A service rejects a token issued at or before a subject row of its feed.
  ghost predicate Rejected(p: Plane, t: Token) {
    exists r :: InFeed(p, t.service, r) && r.jti.None? && r.subject == t.subject && t.iat * SECOND <= r.revokedAt
  }

  // Inside exp plus the service's clock leeway.
  predicate Acceptable(t: Token, c: Config, now: Instant) {
    now < (t.exp + c.skew) * SECOND
  }

  // Everything the token carries would be minted for its subject right now.
  predicate StillMintable(p: Plane, t: Token) {
    && CanMint(p, t.subject, t.service)
    && t.roles <= RoleKeys(p.roles, LiveGrants(p, t.subject, t.service))
    && t.permissions <= Permissions(p.roles, LiveGrants(p, t.subject, t.service))
  }

  predicate NoSourceLapsed(p: Plane, t: Token) {
    forall id | id in t.sources :: Unexpired(t.sources[id].grant, p.now)
  }
}
