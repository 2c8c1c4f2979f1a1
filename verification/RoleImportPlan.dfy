/** The plan an import returns, which is also its dry run, tells what the import does
    (backend/app/roles_io.py:92-106, 343-363, 378-449). */
module RoleImportPlan {
  import opened Options
  import opened RoleAssignment
  import opened RoleFile
  import opened RoleImport
  import opened RoleImportProperties

  // ---------------------------------------------------------------- the assignment's share

  ghost predicate GivenTo(s: Access, assign: Assign, o: Scope, roster: seq<Person>, g: Given) {
    exists i :: 0 <= i < |roster| && roster[i].user == g.user
      && Decide(s, assign, o, roster[i]) == Give(g.role, g.origin)
  }

  ghost predicate SwitchedTo(s: Access, assign: Assign, o: Scope, roster: seq<Person>, c: Change) {
    exists i :: 0 <= i < |roster| && roster[i].user == c.user
      && Decide(s, assign, o, roster[i]) == Switch(c.was, c.becomes, c.origin)
                && c.direction == DirectionOf(s, c.was, c.becomes)
  }

  // The plan lists exactly the people given a role and the people switched, each with the decision.
  lemma {:induction false} AssignAllPlan(s: Import, assign: Assign, o: Scope, roster: seq<Person>)
    requires DistinctUsers(roster)
    ensures var r := AssignAll(s, assign, o, roster).plan;
            && (forall g :: g in r.given <==> g in s.plan.given || GivenTo(s.access, assign, o, roster, g))
            && (forall c :: c in r.changed <==> c in s.plan.changed || SwitchedTo(s.access, assign, o, roster, c))
            && r.(given := {}, changed := {}, kept := 0, warnings := {})
              == s.plan.(given := {}, changed := {}, kept := 0, warnings := {})
  {
    hide Decide, SourceFor, DirectionOf, Settled;
    if roster != [] {
      var n := |roster| - 1;
      var front, p := roster[..n], roster[n];
      AssignAllPlan(s, assign, o, front);
      AssignAllPointwise(s, assign, o, front);
      var mid := AssignAll(s, assign, o, front);
      assert forall i | 0 <= i < n :: front[i] == roster[i] && roster[i].user != p.user;
      DecideAlike(s.access, mid.access, assign, o, p);
      var d := Decide(s.access, assign, o, p);
      forall g
        ensures GivenTo(s.access, assign, o, roster, g) <==>
          GivenTo(s.access, assign, o, front, g) || (g.user == p.user && d == Give(g.role, g.origin))
      {
        GivenOneMore(s.access, assign, o, roster, g);
      }
      forall c ensures SwitchedTo(s.access, assign, o, roster, c) <==>
                       SwitchedTo(s.access, assign, o, front, c)
                         || (c.user == p.user && d == Switch(c.was, c.becomes, c.origin)
                         && c.direction == DirectionOf(s.access, c.was, c.becomes)) {
        SwitchedOneMore(s.access, assign, o, roster, c);
      }
      hide GivenTo, SwitchedTo;
      SameDirection(s.access, mid.access);
    }
  }

  lemma SameDirection(a: Access, b: Access)
    requires a.roles == b.roles
    ensures forall x, y :: DirectionOf(a, x, y) == DirectionOf(b, x, y)
  {}

  lemma GivenOneMore(s: Access, assign: Assign, o: Scope, roster: seq<Person>, g: Given)
    requires roster != []
    ensures var n := |roster| - 1;
            GivenTo(s, assign, o, roster, g) <==>
              GivenTo(s, assign, o, roster[..n], g)
                || (g.user == roster[n].user && Decide(s, assign, o, roster[n]) == Give(g.role, g.origin))
  {
    hide Decide;
    var n := |roster| - 1;
    assert forall i | 0 <= i < n :: roster[..n][i] == roster[i];
  }

  lemma SwitchedOneMore(s: Access, assign: Assign, o: Scope, roster: seq<Person>, c: Change)
    requires roster != []
    ensures var n := |roster| - 1;
            SwitchedTo(s, assign, o, roster, c) <==>
              SwitchedTo(s, assign, o, roster[..n], c)
              || (c.user == roster[n].user && Decide(s, assign, o, roster[n]) == Switch(c.was, c.becomes, c.origin)
                && c.direction == DirectionOf(s, c.was, c.becomes))
  {
    hide Decide, DirectionOf;
    var n := |roster| - 1;
    assert forall i | 0 <= i < n :: roster[..n][i] == roster[i];
  }

  // ---------------------------------------------------------------- the plan and the outcome

  // What the plan says about catalog and roles is the difference between before and after.
  ghost predicate RolesAsPlanned(a: Access, r: Access, plan: Plan) {
    && (plan.catalogChanged <==> r.catalog != a.catalog)
    && plan.created == r.roles.Keys - a.roles.Keys
    && plan.removed == a.roles.Keys - r.roles.Keys
    && plan.updated == set k | k in a.roles && k in r.roles && !SameRole(a.roles[k], r.roles[k])
  }

  // What the plan says about people is the difference between before and after: a new role is in
  // `given`, a different one in `moved` or `changed`, and nobody else is named there.
  ghost predicate PersonAsPlanned(a: Access, r: Access, plan: Plan, u: UserId) {
    && (u !in a.grants && u in r.grants <==> exists g :: g in plan.given && g.user == u)
    && (u in a.grants && GrantOf(r, u) != Some(a.grants[u]) <==>
          (exists m :: m in plan.moved && m.user == u) || (exists c :: c in plan.changed && c.user == u))
    && (forall g | g in plan.given && g.user == u :: GrantOf(r, u) == Some(g.role))
    && (forall c | c in plan.changed && c.user == u :: GrantOf(r, u) == Some(c.becomes))
    && (forall m | m in plan.moved && m.user == u :: u in a.grants && m.was == a.grants[u])
  }

  lemma UnassignedPlan(a: Access, doc: Doc)
    ensures var plan := Unassigned(a, doc).plan;
            && plan.given == {} && plan.changed == {}
            && (plan.catalogChanged <==> a.catalog != doc.permissions)
            && plan.created == Keys(doc) - a.roles.Keys
            && plan.updated == Reworded(a, doc, |doc.roles|)
            && plan.moved == MovesOf(Moves(a.roles.Keys, doc), a.grants)
  {
    hide Keys, Holders, Follow, MovesOf, DeclaredRoles, Relisted, Superseded, DeclaredRole, SameRole;
    assert Reworded(a.(catalog := doc.permissions), doc, |doc.roles|) == Reworded(a, doc, |doc.roles|);
    hide Reworded;
    assert KeysBefore(doc, |doc.roles|) == Keys(doc);
    hide KeysBefore;
  }

  lemma UnassignedRemoved(a: Access, doc: Doc)
    requires Coherent(doc)
    ensures Unassigned(a, doc).plan.removed == a.roles.Keys - Unassigned(a, doc).access.roles.Keys
  {
    hide Keys, Holders, Follow, MovesOf, DeclareUpTo, Superseded, Unassigned, Coherent;
    var u := Unassigned(a, doc);
    forall k ensures k in u.plan.removed <==> k in a.roles && k !in u.access.roles {
      UnassignedRole(a, doc, k);
      RemovedKey(a, doc, k);
    }
  }

  lemma RemovedKey(a: Access, doc: Doc, k: string)
    requires Coherent(doc)
    ensures k in Unassigned(a, doc).plan.removed <==> k in a.roles && k !in Keys(doc) && !Survives(a, doc, k)
  {
    hide Keys, Holders, Follow, MovesOf, Relisted, Reworded, DeclaredRoles, KeysBefore;
    if Superseded(doc, k) {
      NotListed(doc, k);
    }
    hide Superseded, Coherent;
  }

  lemma RolesTold(a: Access, doc: Doc, slug: string, override: Option<string>, roster: seq<Person>)
    requires Coherent(doc) && DistinctUsers(roster)
    ensures var r := Applied(a, doc, slug, override, roster); RolesAsPlanned(a, r.access, r.plan)
  {
    hide Keys, Unassigned, Reworded, SameRole, DeclaredRole, Survives, AssignAll, Coherent, DistinctUsers, Carried,
      KeysBefore;
    var r := Applied(a, doc, slug, override, roster);
    RolesAfterAssignment(a, doc, slug, override, roster);
    PlanAfterAssignment(a, doc, slug, override, roster);
    UnassignedPlan(a, doc);
    UnassignedRemoved(a, doc);
    UnassignedRole(a, doc, "");
    hide Applied;
    forall k
      ensures k in r.plan.created <==> k in r.access.roles && k !in a.roles
      ensures k in r.plan.updated <==> k in a.roles && k in r.access.roles && !SameRole(a.roles[k], r.access.roles[k])
    {
      UnassignedRole(a, doc, k);
      ToldRole(a, doc, k);
    }
  }

  lemma ToldRole(a: Access, doc: Doc, k: string)
    ensures k in Reworded(a, doc, |doc.roles|) <==>
        k in a.roles && k in Keys(doc) && !SameRole(a.roles[k], DeclaredRole(doc, k))
    ensures Survives(a, doc, k) ==> k in a.roles && k !in Keys(doc) && SameRole(a.roles[k], a.roles[k])
  {
    assert KeysBefore(doc, |doc.roles|) == Keys(doc);
    hide Keys, DeclaredRole, Superseded, Carried;
  }

  // Assignment adds to `given`, `changed`, `kept` and `warnings` only.
  lemma PlanAfterAssignment(a: Access, doc: Doc, slug: string, override: Option<string>, roster: seq<Person>)
    requires DistinctUsers(roster)
    ensures var (r, u) := (Applied(a, doc, slug, override, roster).plan, Unassigned(a, doc).plan);
            r.(given := {}, changed := {}, kept := 0, warnings := {})
              == u.(given := {}, changed := {}, kept := 0, warnings := {})
  {
    hide Unassigned, AssignAll, DistinctUsers, GivenTo, SwitchedTo;
    if doc.assign.Some? {
      AssignAllPlan(Unassigned(a, doc), doc.assign.value, FileScope(slug, override, doc.assign.value), roster);
    }
  }

  // What one decision says about its person's grant.
  lemma DecisionGrant(s: Access, assign: Assign, o: Scope, p: Person)
    ensures var d := Decide(s, assign, o, p);
            && (d.Give? <==> p.user !in s.grants && GrantAfter(s, d, p).Some?)
            && (d.Switch? ==>
                  && p.user in s.grants && d.was == s.grants[p.user] && d.role != d.was
                  && GrantAfter(s, d, p) == Some(d.role))
            && (d.Give? ==> GrantAfter(s, d, p) == Some(d.role))
            && (!d.Give? && !d.Switch? ==> GrantAfter(s, d, p) == GrantOf(s, p.user))
  {
    hide SourceFor;
  }

  ghost predicate Told(before: Access, after: Import, u: UserId) {
    && ((exists g :: g in after.plan.given && g.user == u) <==> u !in before.grants && u in after.access.grants)
    && ((exists c :: c in after.plan.changed && c.user == u) <==>
      u in before.grants && GrantOf(after.access, u) != Some(before.grants[u]))
    && (forall g | g in after.plan.given && g.user == u :: GrantOf(after.access, u) == Some(g.role))
    && (forall c | c in after.plan.changed && c.user == u :: GrantOf(after.access, u) == Some(c.becomes))
  }

  lemma ToldAt(s: Import, assign: Assign, o: Scope, roster: seq<Person>, i: int)
    requires DistinctUsers(roster) && 0 <= i < |roster| && s.plan.given == {} && s.plan.changed == {}
    ensures Told(s.access, AssignAll(s, assign, o, roster), roster[i].user)
  {
    hide AssignAll, Decide, DirectionOf, GrantAfter;
    AssignAllPlan(s, assign, o, roster);
    AssignAllPointwise(s, assign, o, roster);
    var r := AssignAll(s, assign, o, roster);
    var p := roster[i];
    var d := Decide(s.access, assign, o, p);
    assert Settled(s.access, r.access, assign, o, p);
    DecisionGrant(s.access, assign, o, p);
    assert forall j | 0 <= j < |roster| && roster[j].user == p.user :: j == i;
    forall g: Given | g.user == p.user ensures g in r.plan.given <==> d == Give(g.role, g.origin) {
      assert g in r.plan.given <==> GivenTo(s.access, assign, o, roster, g);
    }
    forall c: Change | c.user == p.user
      ensures c in r.plan.changed <==>
        d == Switch(c.was, c.becomes, c.origin) && c.direction == DirectionOf(s.access, c.was, c.becomes)
    {
      assert c in r.plan.changed <==> SwitchedTo(s.access, assign, o, roster, c);
    }
    hide DistinctUsers, GivenTo, SwitchedTo, Settled;
    if d.Give? {
      assert Given(p.user, d.role, d.origin) in r.plan.given;
    }
    if d.Switch? {
      assert Change(p.user, d.was, d.role, d.origin, DirectionOf(s.access, d.was, d.role)) in r.plan.changed;
    }
  }

  lemma ToldOff(s: Import, assign: Assign, o: Scope, roster: seq<Person>, u: UserId)
    requires DistinctUsers(roster) && !OnRoster(roster, u) && s.plan.given == {} && s.plan.changed == {}
    ensures Told(s.access, AssignAll(s, assign, o, roster), u)
  {
    hide AssignAll, Decide, DirectionOf, Settled;
    AssignAllPlan(s, assign, o, roster);
    AssignAllPointwise(s, assign, o, roster);
    assert forall i | 0 <= i < |roster| :: roster[i].user != u;
    assert SameFor(s.access, AssignAll(s, assign, o, roster).access, u);
  }

  // Whom the assignment names, and what it found and left there.
  lemma NamedByAssignment(a: Access, doc: Doc, slug: string, override: Option<string>, roster: seq<Person>, u: UserId)
    requires DistinctUsers(roster)
    ensures Told(Unassigned(a, doc).access, Applied(a, doc, slug, override, roster), u)
  {
    hide Unassigned, AssignAll, DistinctUsers;
    UnassignedPlan(a, doc);
    var s := Unassigned(a, doc);
    if doc.assign.Some? {
      var (assign, o) := (doc.assign.value, FileScope(slug, override, doc.assign.value));
      if OnRoster(roster, u) {
        var i :| 0 <= i < |roster| && roster[i].user == u;
        ToldAt(s, assign, o, roster, i);
      } else {
        ToldOff(s, assign, o, roster, u);
      }
    }
  }

  lemma PersonTold(a: Access, doc: Doc, slug: string, override: Option<string>, roster: seq<Person>, u: UserId)
    requires Coherent(doc) && GrantsResolve(a) && DistinctUsers(roster)
    ensures var r := Applied(a, doc, slug, override, roster); PersonAsPlanned(a, r.access, r.plan, u)
  {
    hide Applied, Unassigned, DistinctUsers, Superseded, Successor, EndsWith, AccessChanged, Keys;
    NamedByAssignment(a, doc, slug, override, roster, u);
    PlanAfterAssignment(a, doc, slug, override, roster);
    UnassignedPlan(a, doc);
    UnassignedRole(a, doc, "");
    CarriedGrant(a, doc, u);
    ConservesPerson(a, doc, slug, override, roster, u);
    FirstRunInPlace(a, doc, slug, override, roster);
    MovedNames(a, doc, u);
    hide Carried, MovesOf, Moves, GrantsResolve, Coherent;
  }

  lemma MovedNames(a: Access, doc: Doc, u: UserId)
    requires GrantsResolve(a)
    ensures (exists m :: m in MovesOf(Moves(a.roles.Keys, doc), a.grants) && m.user == u) <==>
        u in a.grants && Superseded(doc, a.grants[u])
    ensures forall m | m in MovesOf(Moves(a.roles.Keys, doc), a.grants) && m.user == u ::
        u in a.grants && m.was == a.grants[u]
  {
    hide Superseded, Successor;
    var moves := Moves(a.roles.Keys, doc);
    if u in a.grants && Superseded(doc, a.grants[u]) {
      assert Move(u, a.grants[u], moves[a.grants[u]]) in MovesOf(moves, a.grants);
    }
  }

  // The plan, and so the dry run, shows exactly what the import changes: catalog, roles created,
  // removed and updated, people given, moved or switched to another role, and nobody and nothing else.
  lemma PlanTellsTheTruth(a: Access, doc: Doc, slug: string, override: Option<string>, roster: seq<Person>)
    requires Validated(doc) && GrantsResolve(a) && DistinctUsers(roster)
    ensures var r := Applied(a, doc, slug, override, roster);
            RolesAsPlanned(a, r.access, r.plan) && forall u :: PersonAsPlanned(a, r.access, r.plan, u)
  {
    hide Applied, Validated, GrantsResolve, DistinctUsers, Coherent, RolesAsPlanned, PersonAsPlanned;
    ValidatedIsCoherent(doc);
    RolesTold(a, doc, slug, override, roster);
    var r := Applied(a, doc, slug, override, roster);
    forall u ensures PersonAsPlanned(a, r.access, r.plan, u) {
      PersonTold(a, doc, slug, override, roster, u);
    }
  }
}
