/** What every run of the control plane keeps about a token some service still accepts: it carries only
    access its subject would be minted now, or the service's feed rejects it. */
module TokenLifecycle {
  import opened Options
  import opened Arithmetic
  import opened ControlPlane

  // ---------------------------------------------------------------- invariant

  ghost predicate SoundTables(p: Plane) {
    && (forall id | id in p.grants ::
          var g := p.grants[id];
          g.user in p.users && g.role in p.roles && p.roles[g.role].service == g.service)
    && (forall a, b | a in p.grants && b in p.grants && a != b ::
          !(p.grants[a].user == p.grants[b].user && p.grants[a].role == p.grants[b].role))
    && (forall a, b | a in p.roles && b in p.roles && a != b ::
          !(p.roles[a].service == p.roles[b].service && p.roles[a].key == p.roles[b].key))
    && (forall r | r in p.revocations :: r.revokedAt <= p.now && r.purgeAfter >= r.revokedAt + 2 * HOUR)
  }

  // What minting fixes for good.
  ghost predicate Shaped(c: Config, t: Token, now: Instant) {
    && t.sources != map[]
    && t.iat * SECOND <= now
    && t.exp <= t.iat + c.ttl
    && t.roles == (set id | id in t.sources :: t.sources[id].role.key)
    && t.permissions == (set id, x | id in t.sources && x in t.sources[id].role.permissions :: x)
    && (forall id | id in t.sources ::
          var g := t.sources[id].grant;
          && g.user == t.subject && g.service == t.service && t.sources[id].role.service == t.service
          && (g.expiresAt.Some? ==> t.exp * SECOND <= g.expiresAt.value))
  }

  // Nothing the token was built from has changed.
  ghost predicate Intact(p: Plane, t: Token) {
    && t.subject in p.users && p.users[t.subject].active && p.users[t.subject].employed
    && t.service in p.services && p.services[t.service]
    && forall id | id in t.sources ::
         && id in p.grants && p.grants[id] == t.sources[id].grant
         && t.sources[id].grant.role in p.roles && p.roles[t.sources[id].grant.role] == t.sources[id].role
  }

  ghost predicate Flags(r: Revocation, t: Token) {
    && r.jti.None? && r.subject == t.subject && (r.service.None? || r.service.value == t.service)
    && t.iat * SECOND <= r.revokedAt
  }

  ghost predicate Flagged(p: Plane, t: Token) {
    exists r :: r in p.revocations && Flags(r, t)
  }

  ghost predicate Accounted(p: Plane, c: Config, t: Token) {
    Shaped(c, t, p.now) && (Intact(p, t) || Flagged(p, t) || !Acceptable(t, c, p.now))
  }

  ghost predicate Inv(p: Plane, c: Config) {
    && ValidConfig(c)
    && SoundTables(p)
    && forall t | t in p.tokens :: Accounted(p, c, t)
  }

  // 900 s of life and 60 s of leeway end well inside the two hours every row is kept.
  lemma FlagOutlivesToken(r: Revocation, c: Config, t: Token, now: Instant)
    requires ValidConfig(c) && Shaped(c, t, now) && Flags(r, t)
    requires r.purgeAfter >= r.revokedAt + 2 * HOUR
    requires Acceptable(t, c, now)
    ensures now < r.purgeAfter
  {
  }

  lemma RejectedIffFlagged(p: Plane, c: Config, t: Token)
    requires Inv(p, c) && t in p.tokens && Acceptable(t, c, p.now)
    ensures Rejected(p, t) <==> Flagged(p, t)
  {
    assert Accounted(p, c, t);
    if Flagged(p, t) {
      var r :| r in p.revocations && Flags(r, t);
      FlagOutlivesToken(r, c, t, p.now);
      assert InFeed(p, t.service, r);
    }
  }

  // ---------------------------------------------------------------- one step

  lemma CreateGrantKeepsTables(p: Plane, id: GrantId, grant: Grant)
    requires SoundTables(p)
    ensures SoundTables(DoCreateGrant(p, id, grant))
  {
  }

  lemma DeleteGrantKeepsTables(p: Plane, id: GrantId)
    requires SoundTables(p)
    ensures SoundTables(DoDeleteGrant(p, id))
  {
  }

  lemma ReplaceRolesKeepsTables(p: Plane, user: UserId, service: ServiceId, wanted: set<RoleId>)
    requires SoundTables(p)
    ensures SoundTables(DoReplaceRoles(p, user, service, wanted))
  {
  }

  lemma MoveGrantKeepsTables(p: Plane, id: GrantId, role: RoleId)
    requires SoundTables(p)
    ensures SoundTables(DoMoveGrant(p, id, role))
  {
  }

  lemma PatchRoleKeepsTables(p: Plane, role: RoleId, permissions: seq<string>)
    requires SoundTables(p)
    ensures SoundTables(DoPatchRole(p, role, permissions))
  {
  }

  lemma AddRoleKeepsTables(p: Plane, id: RoleId, role: Role)
    requires SoundTables(p)
    ensures SoundTables(DoAddRole(p, id, role))
  {
  }

  lemma DeleteRoleKeepsTables(p: Plane, role: RoleId)
    requires SoundTables(p)
    ensures SoundTables(DoDeleteRole(p, role))
  {
    forall id | id in p.grants
      ensures p.grants[id].user in Holders(p, p.grants[id].role)
    {
    }
  }

  // Handlers that leave grants and roles alone.
  lemma OtherKeepsTables(p: Plane, q: Plane)
    requires SoundTables(p)
    requires q.grants == p.grants && q.roles == p.roles && p.users.Keys <= q.users.Keys && p.now <= q.now
    requires forall r | r in q.revocations && r !in p.revocations ::
        r.revokedAt <= q.now && r.purgeAfter >= r.revokedAt + 2 * HOUR
    ensures SoundTables(q)
  {
  }

  lemma StepKeepsTables(p: Plane, c: Config, step: Step)
    requires SoundTables(p)
    ensures SoundTables(Next(p, c, step))
  {
    hide SoundTables;
    match step
    case CreateGrant(id, grant) => CreateGrantKeepsTables(p, id, grant);
    case DeleteGrant(id) => DeleteGrantKeepsTables(p, id);
    case ReplaceRoles(user, service, wanted) => ReplaceRolesKeepsTables(p, user, service, wanted);
    case MoveGrant(id, role) => MoveGrantKeepsTables(p, id, role);
    case PatchRole(role, permissions) => PatchRoleKeepsTables(p, role, permissions);
    case AddRole(id, role) => AddRoleKeepsTables(p, id, role);
    case DeleteRole(role) => DeleteRoleKeepsTables(p, role);
    case _ => OtherKeepsTables(p, Next(p, c, step));
  }

  lemma MintIsShaped(p: Plane, c: Config, user: UserId, service: ServiceId, jti: nat)
    requires ValidConfig(c) && SoundTables(p) && CanMint(p, user, service)
    ensures Shaped(c, Minted(p, c, user, service, jti), p.now)
    ensures Intact(p, Minted(p, c, user, service, jti))
  {
    var grants := LiveGrants(p, user, service);
    var t := Minted(p, c, user, service, jti);
    var at := Earliest(grants, p.now + c.ttl * SECOND);
    assert t.sources.Keys == grants.Keys;
    QuotientMonotone(at, p.now + c.ttl * SECOND, SECOND);
    assert (p.now + c.ttl * SECOND) / SECOND == p.now / SECOND + c.ttl;
    assert t.sources != map[] by {
      var id :| id in grants;
      assert id in t.sources;
    }
    forall id | id in t.sources
      ensures t.sources[id].grant == grants[id] && t.sources[id].role == p.roles[grants[id].role]
    {
    }
    assert t.roles == (set id | id in t.sources :: t.sources[id].role.key);
    assert t.permissions == (set id, x | id in t.sources && x in t.sources[id].role.permissions :: x);
  }

  lemma FlaggedStays(p: Plane, q: Plane, t: Token)
    requires Flagged(p, t) && p.revocations <= q.revocations
    ensures Flagged(q, t)
  {
  }

  // A row written now flags every token its subject was issued so far, on the services it covers.
  lemma CutoffFlags(p: Plane, q: Plane, c: Config, t: Token, service: Option<ServiceId>, retention: int)
    requires Shaped(c, t, p.now) && (service.None? || service.value == t.service)
    requires Cutoff(p, t.subject, service, retention) in q.revocations
    ensures Flagged(q, t)
  {
    assert Flags(Cutoff(p, t.subject, service, retention), t);
  }

  // ---- each handler, met by a token nothing has touched so far

  lemma DeleteGrantAccounts(p: Plane, c: Config, id: GrantId, t: Token)
    requires Shaped(c, t, p.now) && Intact(p, t)
    ensures var q := DoDeleteGrant(p, id); Intact(q, t) || Flagged(q, t)
  {
    if id in t.sources { CutoffFlags(p, DoDeleteGrant(p, id), c, t, Some(t.service), 2 * HOUR); }
  }

  lemma ReplaceRolesAccounts(p: Plane, c: Config, user: UserId, service: ServiceId, wanted: set<RoleId>, t: Token)
    requires Shaped(c, t, p.now) && Intact(p, t)
    ensures var q := DoReplaceRoles(p, user, service, wanted); Intact(q, t) || Flagged(q, t)
  {
    var q := DoReplaceRoles(p, user, service, wanted);
    var gone := Unwanted(p, user, service, wanted);
    if id :| id in t.sources && id in gone {
      CutoffFlags(p, q, c, t, Some(t.service), 2 * HOUR);
    }
  }

  lemma MoveGrantAccounts(p: Plane, c: Config, id: GrantId, role: RoleId, t: Token)
    requires Shaped(c, t, p.now) && Intact(p, t)
    ensures var q := DoMoveGrant(p, id, role); Intact(q, t) || Flagged(q, t)
  {
    var q := DoMoveGrant(p, id, role);
    if id in t.sources && q != p { CutoffFlags(p, q, c, t, Some(t.service), 2 * HOUR); }
  }

  lemma PatchRoleAccounts(p: Plane, c: Config, role: RoleId, permissions: seq<string>, t: Token)
    requires SoundTables(p) && Shaped(c, t, p.now) && Intact(p, t)
    ensures var q := DoPatchRole(p, role, permissions); Intact(q, t) || Flagged(q, t)
  {
    var q := DoPatchRole(p, role, permissions);
    if id :| id in t.sources && t.sources[id].grant.role == role && q != p {
      assert t.subject in Holders(p, role) by { assert p.grants[id].user == t.subject; }
      CutoffFlags(p, q, c, t, Some(t.service), 2 * HOUR);
    }
  }

  lemma DeleteRoleAccounts(p: Plane, c: Config, role: RoleId, t: Token)
    requires Shaped(c, t, p.now) && Intact(p, t)
    ensures Intact(DoDeleteRole(p, role), t)
  {
    forall id | id in t.sources
      ensures p.grants[id].user in Holders(p, p.grants[id].role)
    {
    }
  }

  lemma PatchServiceAccounts(p: Plane, c: Config, service: ServiceId, active: bool, joins: bool, t: Token)
    requires Shaped(c, t, p.now) && Intact(p, t)
    ensures var q := DoPatchService(p, service, active, joins); Intact(q, t) || Flagged(q, t)
  {
    if service == t.service && !active && joins {
      var id :| id in t.sources;
      assert t.subject in ServiceUsers(p, service) by { assert p.grants[id].service == service; }
      CutoffFlags(p, DoPatchService(p, service, active, joins), c, t, Some(t.service), 24 * HOUR);
    }
  }

  lemma SetActiveAccounts(p: Plane, c: Config, user: UserId, active: bool, t: Token)
    requires Shaped(c, t, p.now) && Intact(p, t)
    ensures var q := DoSetActive(p, user, active); Intact(q, t) || Flagged(q, t)
  {
    if user == t.subject && !active { CutoffFlags(p, DoSetActive(p, user, active), c, t, None, 2 * HOUR); }
  }

  lemma SheetExitAccounts(p: Plane, c: Config, user: UserId, t: Token)
    requires Shaped(c, t, p.now) && Intact(p, t)
    ensures var q := DoSheetExit(p, user); Intact(q, t) || Flagged(q, t)
  {
    if user == t.subject { CutoffFlags(p, DoSheetExit(p, user), c, t, None, 24 * HOUR); }
  }

  lemma KillAccounts(p: Plane, c: Config, user: UserId, issues: set<Issue>, t: Token)
    requires Shaped(c, t, p.now) && Intact(p, t)
    ensures var q := DoKill(p, user, issues); Intact(q, t) || Flagged(q, t)
  {
    if user == t.subject { CutoffFlags(p, DoKill(p, user, issues), c, t, None, 24 * HOUR); }
  }

  lemma SetEmployedAccounts(p: Plane, c: Config, user: UserId, employed: bool, t: Token)
    requires Shaped(c, t, p.now) && Intact(p, t)
    ensures var q := DoSetEmployed(p, user, employed); Intact(q, t) || Flagged(q, t)
  {
    if user == t.subject { CutoffFlags(p, DoSetEmployed(p, user, employed), c, t, None, 24 * HOUR); }
  }

  // Handlers that only add, or touch nothing a token is built from.
  lemma NeutralAccounts(p: Plane, c: Config, step: Step, t: Token)
    requires Intact(p, t)
    requires step.Mint? || step.CreateGrant? || step.AddRole? || step.Tick?
    ensures Intact(Next(p, c, step), t)
  {
  }

  lemma StepAccounts(p: Plane, c: Config, step: Step, t: Token)
    requires SoundTables(p) && Shaped(c, t, p.now) && Intact(p, t) && !step.Purge?
    ensures Intact(Next(p, c, step), t) || Flagged(Next(p, c, step), t)
  {
    hide Intact, Flagged, SoundTables, Shaped;
    match step
    case DeleteGrant(id) => DeleteGrantAccounts(p, c, id, t);
    case ReplaceRoles(user, service, wanted) => ReplaceRolesAccounts(p, c, user, service, wanted, t);
    case MoveGrant(id, role) => MoveGrantAccounts(p, c, id, role, t);
    case PatchRole(role, permissions) => PatchRoleAccounts(p, c, role, permissions, t);
    case DeleteRole(role) => DeleteRoleAccounts(p, c, role, t);
    case PatchService(service, active, joins) => PatchServiceAccounts(p, c, service, active, joins, t);
    case SetActive(user, active) => SetActiveAccounts(p, c, user, active, t);
    case SheetExit(user) => SheetExitAccounts(p, c, user, t);
    case Kill(user, issues) => KillAccounts(p, c, user, issues, t);
    case SetEmployed(user, employed) => SetEmployedAccounts(p, c, user, employed, t);
    case _ => NeutralAccounts(p, c, step, t);
  }

  // A purge only takes rows no acceptable token needs any more.
  lemma PurgeAccounts(p: Plane, c: Config, t: Token)
    requires Inv(p, c) && t in p.tokens
    ensures Accounted(DoPurge(p), c, t)
  {
    assert Accounted(p, c, t);
    if Flagged(p, t) && Acceptable(t, c, p.now) {
      var r :| r in p.revocations && Flags(r, t);
      FlagOutlivesToken(r, c, t, p.now);
      assert r in DoPurge(p).revocations;
    }
  }

  // Only minting adds tokens, only a purge takes rows, and time does not run back.
  lemma StepFrame(p: Plane, c: Config, step: Step)
    ensures var q := Next(p, c, step);
      && p.now <= q.now
      && (!step.Purge? ==> p.revocations <= q.revocations)
      && p.tokens <= q.tokens
      && (q.tokens != p.tokens ==> step.Mint? && CanMint(p, step.user, step.service)
                                   && q == p.(tokens := p.tokens + {Minted(p, c, step.user, step.service, step.jti)}))
  {
  }

  lemma TokenStaysAccounted(p: Plane, c: Config, step: Step, t: Token)
    requires Inv(p, c) && t in p.tokens
    ensures Accounted(Next(p, c, step), c, t)
  {
    var q := Next(p, c, step);
    assert Accounted(p, c, t);
    StepFrame(p, c, step);
    if step.Purge? {
      PurgeAccounts(p, c, t);
    } else {
      hide Next, Intact, Flagged;
      if Intact(p, t) { StepAccounts(p, c, step, t); }
      if Flagged(p, t) { FlaggedStays(p, q, t); }
    }
  }

  lemma StepKeepsInv(p: Plane, c: Config, step: Step)
    requires Inv(p, c)
    ensures Inv(Next(p, c, step), c)
  {
    var q := Next(p, c, step);
    StepKeepsTables(p, c, step);
    StepFrame(p, c, step);
    hide Next, SoundTables, Intact, Shaped, Minted;
    forall t | t in q.tokens
      ensures Accounted(q, c, t)
    {
      if t in p.tokens {
        TokenStaysAccounted(p, c, step, t);
      } else {
        MintIsShaped(p, c, step.user, step.service, step.jti);
        IntactStays(p, q, t);
      }
    }
  }

  lemma IntactStays(p: Plane, q: Plane, t: Token)
    requires Intact(p, t) && q == p.(tokens := q.tokens)
    ensures Intact(q, t)
  {
  }

  lemma {:induction false} RunKeepsInv(p: Plane, c: Config, steps: seq<Step>)
    requires Inv(p, c)
    ensures Inv(Run(p, c, steps), c)
    decreases |steps|
  {
    if steps != [] {
      StepKeepsInv(p, c, steps[0]);
      RunKeepsInv(Next(p, c, steps[0]), c, steps[1..]);
    }
  }

  // ---------------------------------------------------------------- safety over whole runs

  ghost predicate Fresh(p: Plane) {
    SoundTables(p) && p.tokens == {}
  }

  // A token nobody revoked is still mintable exactly when no grant it was built from has lapsed.
  lemma MintableIffNotLapsed(p: Plane, c: Config, t: Token)
    requires SoundTables(p) && Shaped(c, t, p.now) && Intact(p, t)
    ensures StillMintable(p, t) <==> NoSourceLapsed(p, t)
  {
    var live := LiveGrants(p, t.subject, t.service);
    if NoSourceLapsed(p, t) {
      forall id | id in t.sources
        ensures id in live && p.roles[live[id].role] == t.sources[id].role
      {
      }
      var one :| one in t.sources;
      assert one in live;
      forall x | x in t.permissions
        ensures x in Permissions(p.roles, live)
      {
        var id :| id in t.sources && x in t.sources[id].role.permissions;
        assert live[id].role in p.roles && x in p.roles[live[id].role].permissions;
      }
    } else {
      var id :| id in t.sources && !Unexpired(t.sources[id].grant, p.now);
      var key := t.sources[id].role.key;
      assert key in t.roles;
      forall other | other in p.grants && p.grants[other].user == t.subject && p.grants[other].service == t.service
                     && p.roles[p.grants[other].role].key == key
        ensures other == id
      {
        assert p.grants[other].role == p.grants[id].role;
      }
      assert id !in live;
      assert key !in RoleKeys(p.roles, live);
    }
  }

  // In every run of minting, grant, role, service and account changes, kills, purges and time: a
  // token its service still accepts is rejected by that service's feed, or carries only access its
  // subject would be minted right now, exactly unless a grant it was built from has lapsed. While
  // the clock is short of exp none has, so inside exp the token is always covered.
  lemma AcceptedTokensAreCovered(p0: Plane, c: Config, steps: seq<Step>, t: Token)
    requires ValidConfig(c) && Fresh(p0)
    requires t in Run(p0, c, steps).tokens && Acceptable(t, c, Run(p0, c, steps).now)
    ensures var p := Run(p0, c, steps);
      && (Rejected(p, t) || StillMintable(p, t) <==> Rejected(p, t) || NoSourceLapsed(p, t))
      && (p.now < t.exp * SECOND ==> NoSourceLapsed(p, t))
  {
    var p := Run(p0, c, steps);
    RunKeepsInv(p0, c, steps);
    assert Accounted(p, c, t);
    RejectedIffFlagged(p, c, t);
    if !Flagged(p, t) {
      MintableIffNotLapsed(p, c, t);
    }
  }

  // No token outlives a grant it was built from, nor its 900 s.
  lemma NoTokenOutlivesItsGrants(p0: Plane, c: Config, steps: seq<Step>, t: Token, id: GrantId)
    requires ValidConfig(c) && Fresh(p0)
    requires t in Run(p0, c, steps).tokens && id in t.sources
    ensures t.exp <= t.iat + MAX_TTL
    ensures t.sources[id].grant.expiresAt.Some? ==> t.exp * SECOND <= t.sources[id].grant.expiresAt.value
  {
    RunKeepsInv(p0, c, steps);
    assert Accounted(Run(p0, c, steps), c, t);
  }

  lemma StepKeepsRejection(p: Plane, c: Config, step: Step, t: Token)
    requires Inv(p, c) && t in p.tokens && Rejected(p, t)
    requires Acceptable(t, c, Next(p, c, step).now)
    ensures Rejected(Next(p, c, step), t)
  {
    var q := Next(p, c, step);
    StepKeepsInv(p, c, step);
    StepFrame(p, c, step);
    assert Accounted(p, c, t) && Accounted(q, c, t);
    var r :| InFeed(p, t.service, r) && r.jti.None? && r.subject == t.subject && t.iat * SECOND <= r.revokedAt;
    assert Flags(r, t);
    FlagOutlivesToken(r, c, t, p.now);
    assert r in q.revocations;
    assert Flagged(q, t);
    RejectedIffFlagged(q, c, t);
  }

  lemma {:induction false} TimeOnlyPasses(p: Plane, c: Config, steps: seq<Step>)
    ensures p.now <= Run(p, c, steps).now && p.tokens <= Run(p, c, steps).tokens
    decreases |steps|
  {
    if steps != [] {
      StepFrame(p, c, steps[0]);
      TimeOnlyPasses(Next(p, c, steps[0]), c, steps[1..]);
    }
  }

  // Once rejected, rejected as long as any service would accept the token: no purge and no later
  // change takes the row back early.
  lemma {:induction false} RejectionLasts(p: Plane, c: Config, steps: seq<Step>, t: Token)
    requires Inv(p, c) && t in p.tokens && Rejected(p, t)
    requires Acceptable(t, c, Run(p, c, steps).now)
    ensures Rejected(Run(p, c, steps), t)
    decreases |steps|
  {
    if steps != [] {
      var q := Next(p, c, steps[0]);
      StepFrame(p, c, steps[0]);
      TimeOnlyPasses(q, c, steps[1..]);
      StepKeepsInv(p, c, steps[0]);
      StepKeepsRejection(p, c, steps[0], t);
      RejectionLasts(q, c, steps[1..], t);
    }
  }

  // The leeway gap is real: a token built from a grant that ends in 100 s is still accepted then,
  // though its subject would be minted nothing and no feed row rejects it.
  const GAP_CONFIG := Config(900, 60)

  const GAP_GRANT := Grant(1, 1, 1, Some(100 * SECOND))

  const GAP_START := Plane(0, map[1 := User(true, true)], map[1 := true], map[1 := Role(1, "viewer", ["items.view"])],
                           map[1 := GAP_GRANT], {}, {})

  const GAP_STEPS: seq<Step> := [Mint(1, 1, 7), Tick(100 * SECOND)]

  lemma GapMint()
    ensures CanMint(GAP_START, 1, 1)
    ensures var t := Minted(GAP_START, GAP_CONFIG, 1, 1, 7);
            t.subject == 1 && t.service == 1 && t.exp == 100
              && t.sources == map[1 := Source(GAP_GRANT, GAP_START.roles[1])]
  {
    assert LiveGrants(GAP_START, 1, 1) == map[1 := GAP_GRANT];
    var m := map[1 := GAP_GRANT];
    assert 1 in m && m[1].expiresAt.Some?;
    assert Earliest(m, 900 * SECOND) <= m[1].expiresAt.value;
    assert Earliest(m, 900 * SECOND) == 100 * SECOND;
  }

  lemma {:induction false} GapRun()
    ensures Run(GAP_START, GAP_CONFIG, GAP_STEPS)
         == GAP_START.(tokens := {Minted(GAP_START, GAP_CONFIG, 1, 1, 7)}, now := 100 * SECOND)
  {
    hide Minted;
    GapMint();
    var p1 := GAP_START.(tokens := {Minted(GAP_START, GAP_CONFIG, 1, 1, 7)});
    var p2 := p1.(now := 100 * SECOND);
    assert Next(GAP_START, GAP_CONFIG, GAP_STEPS[0]) == p1;
    assert GAP_STEPS[1..] == [Tick(100 * SECOND)];
    assert [Tick(100 * SECOND)][1..] == [];
    assert Next(p1, GAP_CONFIG, Tick(100 * SECOND)) == p2;
    assert Run(p1, GAP_CONFIG, [Tick(100 * SECOND)]) == Run(p2, GAP_CONFIG, []) == p2;
  }

  lemma LeewayGap()
    ensures ValidConfig(GAP_CONFIG) && Fresh(GAP_START)
    ensures var p := Run(GAP_START, GAP_CONFIG, GAP_STEPS);
      exists t :: t in p.tokens && Acceptable(t, GAP_CONFIG, p.now) && !Rejected(p, t) && !StillMintable(p, t)
  {
    GapMint();
    GapRun();
    hide Minted, Run;
    var t := Minted(GAP_START, GAP_CONFIG, 1, 1, 7);
    var p := Run(GAP_START, GAP_CONFIG, GAP_STEPS);
    assert LiveGrants(p, 1, 1) == map[];
    assert t in p.tokens;
  }
}
