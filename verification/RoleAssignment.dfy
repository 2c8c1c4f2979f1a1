/** One service's roles and grants, and the assignment engine the role-file import and the people
    sheet share (backend/app/roles_io.py:264-363). A person holds at most one role here. */
module RoleAssignment {
  import opened Options
  import opened Text

  type UserId = nat

  datatype Role = Role(name: string, description: Option<string>, isDefault: bool, permissions: seq<string>,
      sortOrder: int)

  // `cutoffs` counts the revocation rows written for this service, by person.
  datatype Access = Access(
    catalog: map<string, string>,
    roles: map<string, Role>,
    grants: map<UserId, string>,
    cutoffs: multiset<UserId>)

  // Every grant points at a role that exists: the foreign key of grants.service_role_id.
  ghost predicate GrantsResolve(a: Access) {
    forall u | u in a.grants :: a.grants[u] in a.roles
  }

  // A user joined with the employee record behind it.
  datatype Person = Person(
    user: UserId, code: string, loginEmail: Option<string>, workEmail: Option<string>,
    admin: bool, approver: bool, approvalLevel: bool, band: Option<string>, department: Option<string>)

  ghost predicate DistinctUsers(roster: seq<Person>) {
    forall i, j | 0 <= i < j < |roster| :: roster[i].user != roster[j].user
  }

  datatype Rule = Rule(
    admin: Option<bool>, approver: Option<bool>, approvalLevel: Option<bool>,
    band: Option<seq<string>>, department: Option<seq<string>>, role: Option<string>, unknownKeys: set<string>)

  datatype Assign = Assign(mode: Option<string>, rules: seq<Rule>, people: seq<(string, string)>,
      default: Option<string>)

  datatype Origin = FromPeople | FromRule | FromDefault | FromNothing

  datatype Direction = Up | Down | Sideways

  datatype Given = Given(user: UserId, role: string, origin: Origin)

  datatype Change = Change(user: UserId, was: string, becomes: string, origin: Origin, direction: Direction)

  datatype Move = Move(user: UserId, was: string, becomes: string)

  datatype Warning = NoSuchRole(user: UserId, role: string) | NobodyMatches(ident: string) | KeptRole(role: string)

  datatype Plan = Plan(
    catalogChanged: bool, created: set<string>, updated: set<string>, removed: set<string>,
    moved: set<Move>, given: set<Given>, changed: set<Change>, kept: nat, warnings: set<Warning>)

  const EMPTY_PLAN := Plan(false, {}, {}, {}, {}, {}, {}, 0, {})

  datatype Import = Import(access: Access, plan: Plan)

  // How assign_roles is called: `only` None is everyone.
  datatype Scope = Scope(slug: string, mode: string, peopleOverride: bool, only: Option<set<UserId>>, skip: set<string>)

  // ---------------------------------------------------------------- who gets what

  predicate RuleMatches(rule: Rule, p: Person) {
    && (rule.admin.Some? ==> p.admin == rule.admin.value)
    && (rule.approver.Some? ==> p.approver == rule.approver.value)
    && (rule.approvalLevel.Some? ==> p.approvalLevel == rule.approvalLevel.value)
    && (rule.band.Some? ==> p.band.Some? && p.band.value in rule.band.value)
    && (rule.department.Some? ==> p.department.Some? && p.department.value in rule.department.value)
  }

  // A dict built from pairs keeps the last value of a key.
  function NamedRole(people: seq<(string, string)>, ident: string): (r: Option<string>)
    ensures r.None? <==> forall i | 0 <= i < |people| :: Lower(people[i].0) != ident
    ensures r.Some? ==> exists i :: 0 <= i < |people| && Lower(people[i].0) == ident && r.value == people[i].1
                                    && forall j | i < j < |people| :: Lower(people[j].0) != ident
  {
    if people == [] then None
    else
      var last := people[|people| - 1];
      if Lower(last.0) == ident then Some(last.1) else NamedRole(people[..|people| - 1], ident)
  }

  function Idents(p: Person): seq<string> {
    (if p.code != "" then [Lower(p.code)] else [])
    + (if p.loginEmail.Some? && p.loginEmail.value != "" then [Lower(p.loginEmail.value)] else [])
    + (if p.workEmail.Some? && p.workEmail.value != "" then [Lower(p.workEmail.value)] else [])
  }

  function FirstNamed(people: seq<(string, string)>, idents: seq<string>): (r: Option<string>)
    ensures r.None? <==> forall k | 0 <= k < |idents| :: NamedRole(people, idents[k]).None?
    ensures r.Some? ==> exists k :: 0 <= k < |idents| && NamedRole(people, idents[k]) == r
                                    && forall l | 0 <= l < k :: NamedRole(people, idents[l]).None?
  {
    if idents == [] then None
    else if NamedRole(people, idents[0]).Some? then NamedRole(people, idents[0])
    else
      var r := FirstNamed(people, idents[1..]);
      assert forall k | 1 <= k < |idents| :: idents[k] == idents[1..][k - 1];
      r
  }

  function FirstRule(rules: seq<Rule>, p: Person): (r: Option<Rule>)
    ensures r.None? <==> forall i | 0 <= i < |rules| :: !RuleMatches(rules[i], p)
    ensures r.Some? ==> exists i :: 0 <= i < |rules| && rules[i] == r.value && RuleMatches(rules[i], p)
                                    && forall j | 0 <= j < i :: !RuleMatches(rules[j], p)
  {
    if rules == [] then None
    else if RuleMatches(rules[0], p) then Some(rules[0])
    else
      var r := FirstRule(rules[1..], p);
      assert forall i | 1 <= i < |rules| :: rules[i] == rules[1..][i - 1];
      r
  }

  // source_for
  function SourceFor(assign: Assign, p: Person): (Option<string>, Origin) {
    var named := FirstNamed(assign.people, Idents(p));
    if named.Some? then (named, FromPeople)
    else
      var rule := FirstRule(assign.rules, p);
      if rule.Some? then (rule.value.role, FromRule)
      else if assign.default.Some? && assign.default.value != "" then (assign.default, FromDefault)
      else (None, FromNothing)
  }

  // ---------------------------------------------------------------- one person

  datatype Decision =
    | Ignore
    | Skip
    | Missing(role: string)
    | Give(role: string, origin: Origin)
    | Switch(was: string, role: string, origin: Origin)
    | Keep

  predicate InScope(o: Scope, p: Person) {
    o.only.None? || p.user in o.only.value
  }

  predicate Skipped(o: Scope, p: Person) {
    Lower(p.code + ":" + o.slug) in o.skip
  }

  function Decide(a: Access, assign: Assign, o: Scope, p: Person): Decision {
    var (key, origin) := SourceFor(assign, p);
    if !InScope(o, p) || key.None? then Ignore
    else if Skipped(o, p) then Skip
    else if key.value !in a.roles then Missing(key.value)
    else if p.user !in a.grants then Give(key.value, origin)
    else if a.grants[p.user] != key.value && (o.mode == "all" || (o.peopleOverride && origin == FromPeople))
      then Switch(a.grants[p.user], key.value, origin)
    else Keep
  }

  function Rank(a: Access, key: string): int {
    if key in a.roles then a.roles[key].sortOrder else 0
  }

  function DirectionOf(a: Access, was: string, becomes: string): Direction {
    if Rank(a, becomes) > Rank(a, was) then Up else if Rank(a, becomes) < Rank(a, was) then Down else Sideways
  }

  function Carry(s: Import, p: Person, d: Decision): Import {
    match d
    case Ignore => s
    case Skip => s.(plan := s.plan.(kept := s.plan.kept + 1))
    case Missing(role) => s.(plan := s.plan.(warnings := s.plan.warnings + {NoSuchRole(p.user, role)}))
    case Give(role, origin) =>
      s.(access := s.access.(grants := s.access.grants[p.user := role]),
         plan := s.plan.(given := s.plan.given + {Given(p.user, role, origin)}))
    case Switch(was, role, origin) =>
      s.(access := s.access.(grants := s.access.grants[p.user := role], cutoffs := s.access.cutoffs + multiset{p.user}),
         plan := s.plan.(changed := s.plan.changed
           + {Change(p.user, was, role, origin, DirectionOf(s.access, was, role))}))
    case Keep => s.(plan := s.plan.(kept := s.plan.kept + 1))
  }

  // The loop of assign_roles after everyone on `roster`.
  function AssignAll(s: Import, assign: Assign, o: Scope, roster: seq<Person>): Import {
    if roster == [] then s
    else
      var front := AssignAll(s, assign, o, roster[..|roster| - 1]);
      var p := roster[|roster| - 1];
      Carry(front, p, Decide(front.access, assign, o, p))
  }

  function Unmatched(assign: Assign, o: Scope, roster: seq<Person>): set<Warning> {
    if o.only.Some? then {}
    else
      set i | && 0 <= i < |assign.people|
              && (forall k | 0 <= k < |roster| :: Lower(assign.people[i].0) !in Idents(roster[k]))
           :: NobodyMatches(Lower(assign.people[i].0))
  }

  function Assigned(s: Import, assign: Assign, o: Scope, roster: seq<Person>): Import {
    var r := AssignAll(s, assign, o, roster);
    r.(plan := r.plan.(warnings := r.plan.warnings + Unmatched(assign, o, roster)))
  }

  // ---------------------------------------------------------------- everyone at once

  // The grant a person ends with, from the state before the run.
  function GrantAfter(a: Access, d: Decision, p: Person): Option<string> {
    match d
    case Give(role, _) => Some(role)
    case Switch(_, role, _) => Some(role)
    case _ => if p.user in a.grants then Some(a.grants[p.user]) else None
  }

  function GrantOf(a: Access, u: UserId): Option<string> {
    if u in a.grants then Some(a.grants[u]) else None
  }

  // One person's access is the same in both states.
  ghost predicate SameFor(a: Access, b: Access, u: UserId) {
    GrantOf(a, u) == GrantOf(b, u) && a.cutoffs[u] == b.cutoffs[u]
  }

  // What the run did to `p`, from the state before it.
  ghost predicate Settled(before: Access, after: Access, assign: Assign, o: Scope, p: Person) {
    var d := Decide(before, assign, o, p);
    && GrantOf(after, p.user) == GrantAfter(before, d, p)
    && after.cutoffs[p.user] == before.cutoffs[p.user] + (if d.Switch? then 1 else 0)
  }

  lemma CarryEffect(s: Import, p: Person, assign: Assign, o: Scope)
    ensures var r := Carry(s, p, Decide(s.access, assign, o, p)).access;
            && r.roles == s.access.roles && r.catalog == s.access.catalog
            && Settled(s.access, r, assign, o, p)
            && forall u | u != p.user :: SameFor(s.access, r, u)
  {
    hide SourceFor, Skipped;
  }

  lemma DecideAlike(a: Access, b: Access, assign: Assign, o: Scope, p: Person)
    requires a.roles == b.roles && SameFor(a, b, p.user)
    ensures Decide(a, assign, o, p) == Decide(b, assign, o, p)
  {
    hide SourceFor, Skipped;
  }

  // Nobody's result depends on anybody else's: each is decided from the state before the run.
  lemma {:induction false} AssignAllPointwise(s: Import, assign: Assign, o: Scope, roster: seq<Person>)
    requires DistinctUsers(roster)
    ensures var r := AssignAll(s, assign, o, roster).access;
            && r.roles == s.access.roles && r.catalog == s.access.catalog
            && (forall i | 0 <= i < |roster| :: Settled(s.access, r, assign, o, roster[i]))
            && (forall u | (forall i | 0 <= i < |roster| :: roster[i].user != u) :: SameFor(s.access, r, u))
  {
    hide Carry, Decide;
    if roster != [] {
      var n := |roster| - 1;
      var front := roster[..n];
      AssignAllPointwise(s, assign, o, front);
      var mid := AssignAll(s, assign, o, front);
      var p := roster[n];
      assert forall i | 0 <= i < n :: front[i] == roster[i] && roster[i].user != p.user;
      assert SameFor(s.access, mid.access, p.user);
      DecideAlike(s.access, mid.access, assign, o, p);
      CarryEffect(mid, p, assign, o);
      var r := AssignAll(s, assign, o, roster).access;
      forall i | 0 <= i < n ensures Settled(s.access, r, assign, o, roster[i]) {
        assert Settled(s.access, mid.access, assign, o, front[i]);
        assert SameFor(mid.access, r, roster[i].user);
      }
      forall u | forall i | 0 <= i < |roster| :: roster[i].user != u
        ensures SameFor(s.access, r, u)
      {
        assert roster[n].user != u;
        assert forall i | 0 <= i < n :: front[i].user == roster[i].user;
        assert SameFor(s.access, mid.access, u) && SameFor(mid.access, r, u);
      }
    }
  }

  // ---------------------------------------------------------------- the engine, row by row

  class ServiceAccess {
    var catalog: map<string, string>
    var roles: map<string, Role>
    var grants: map<UserId, string>
    var cutoffs: multiset<UserId>
    var plan: Plan

    function View(): Import
      reads this
    {
      Import(Access(catalog, roles, grants, cutoffs), plan)
    }

    constructor (a: Access)
      ensures View() == Import(a, EMPTY_PLAN)
    {
      catalog, roles, grants, cutoffs, plan := a.catalog, a.roles, a.grants, a.cutoffs, EMPTY_PLAN;
    }

    method AssignOne(assign: Assign, o: Scope, p: Person)
      modifies this`grants, this`cutoffs, this`plan
      ensures View() == Carry(old(View()), p, Decide(old(View()).access, assign, o, p))
    {
      hide SourceFor, DirectionOf, Lower;
      if o.only.Some? && p.user !in o.only.value {
        return;
      }
      var (key, origin) := SourceFor(assign, p);
      if key.None? {
        return;
      }
      if Lower(p.code + ":" + o.slug) in o.skip {
        plan := plan.(kept := plan.kept + 1);
        return;
      }
      if key.value !in roles {
        plan := plan.(warnings := plan.warnings + {NoSuchRole(p.user, key.value)});
        return;
      }
      if p.user !in grants {
        grants := grants[p.user := key.value];
        plan := plan.(given := plan.given + {Given(p.user, key.value, origin)});
      } else if grants[p.user] != key.value && (o.mode == "all" || (o.peopleOverride && origin == FromPeople)) {
        var was := grants[p.user];
        var direction := DirectionOf(View().access, was, key.value);
        grants := grants[p.user := key.value];
        cutoffs := cutoffs + multiset{p.user};
        plan := plan.(changed := plan.changed + {Change(p.user, was, key.value, origin, direction)});
      } else {
        plan := plan.(kept := plan.kept + 1);
      }
    }

    method AssignRoles(assign: Assign, o: Scope, roster: seq<Person>)
      modifies this`grants, this`cutoffs, this`plan
      ensures View() == Assigned(old(View()), assign, o, roster)
    {
      hide Decide, Carry;
      var matched: set<string> := {};
      for i := 0 to |roster|
        invariant View() == AssignAll(old(View()), assign, o, roster[..i])
        invariant o.only.None? ==> matched == set k, x | 0 <= k < i && x in Idents(roster[k]) :: x
      {
        if o.only.None? || roster[i].user in o.only.value {
          matched := matched + set x | x in Idents(roster[i]);
        }
        AssignOne(assign, o, roster[i]);
        assert roster[..i + 1][..i] == roster[..i];
      }
      assert roster[..|roster|] == roster;
      if o.only.None? {
        var missing := set i | 0 <= i < |assign.people| && Lower(assign.people[i].0) !in matched ::
          NobodyMatches(Lower(assign.people[i].0));
        assert missing == Unmatched(assign, o, roster);
        plan := plan.(warnings := plan.warnings + missing);
      }
    }
  }
}
