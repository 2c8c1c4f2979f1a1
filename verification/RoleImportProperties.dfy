/** What an import of a role file guarantees: access is conserved, importing again is quiet exactly
    when nothing unlisted was emptied, and export undoes import. */
module RoleImportProperties {
  import opened Options
  import opened Text
  import opened RoleAssignment
  import opened RoleFile
  import opened RoleImport

  // What `assign` names for a person.
  function RoleGiven(doc: Doc, p: Person): Option<string> {
    if doc.assign.None? then None else SourceFor(doc.assign.value, p).0
  }

  predicate RederivesEveryone(doc: Doc, override: Option<string>) {
    doc.assign.Some? && ModeOf(override, doc.assign.value) == "all"
  }

  // The grants after `replaces` alone.
  ghost function Carried(a: Access, doc: Doc): map<UserId, string> {
    Follow(Moves(a.roles.Keys, doc), a.grants)
  }

  function Lookup(grants: map<UserId, string>, u: UserId): Option<string> {
    if u in grants then Some(grants[u]) else None
  }

  ghost predicate PermissionsChanged(a: Access, doc: Doc, k: string) {
    k in a.roles && k in Keys(doc) && a.roles[k].permissions != DeclaredRole(doc, k).permissions
  }

  ghost predicate Survives(a: Access, doc: Doc, k: string) {
    k in a.roles && k !in Keys(doc) && !Superseded(doc, k) && (doc.removeUnlisted ==> k in Carried(a, doc).Values)
  }

  lemma UnassignedRole(a: Access, doc: Doc, k: string)
    requires Coherent(doc)
    ensures var r := Unassigned(a, doc).access;
            && r.catalog == doc.permissions && r.grants == Carried(a, doc)
            && (k in r.roles <==> k in Keys(doc) || Survives(a, doc, k))
            && (k in r.roles ==> r.roles[k] == if k in Keys(doc) then DeclaredRole(doc, k) else a.roles[k])
  {
    hide Follow, DeclaredRole, Keys, MovesOf, Holders, Relisted, Reworded;
    if Superseded(doc, k) {
      NotListed(doc, k);
    }
    hide Superseded, Coherent;
    var d := Declared(Import(a, EMPTY_PLAN), doc);
    assert k in d.access.roles <==> k in a.roles || k in Keys(doc);
    var m := MoveAll(d, Moves(a.roles.Keys, doc));
    assert k in m.access.roles <==> k in d.access.roles && !(k in a.roles && Superseded(doc, k));
  }

  lemma UnassignedCutoffs(a: Access, doc: Doc, u: UserId)
    ensures Unassigned(a, doc).access.cutoffs[u] == a.cutoffs[u]
            + (if u in a.grants && PermissionsChanged(a, doc, a.grants[u]) then 1 else 0)
            + (if u in a.grants && a.grants[u] in a.roles && Superseded(doc, a.grants[u]) then 1 else 0)
  {
    hide Follow, DeclaredRole, Superseded, Keys, MovesOf, Pruned;
    var d := Declared(Import(a, EMPTY_PLAN), doc);
    assert d.access.cutoffs[u] == a.cutoffs[u]
           + (if u in a.grants && PermissionsChanged(a, doc, a.grants[u]) then 1 else 0);
    PrunedCutoffs(MoveAll(d, Moves(a.roles.Keys, doc)), a.roles.Keys, doc);
  }

  lemma PrunedCutoffs(s: Import, existing: set<string>, doc: Doc)
    ensures Pruned(s, existing, doc).access.cutoffs == s.access.cutoffs
  {}

  lemma CarriedGrant(a: Access, doc: Doc, u: UserId)
    requires Coherent(doc) && GrantsResolve(a)
    ensures u in Carried(a, doc) <==> u in a.grants
    ensures u in a.grants ==>
      Carried(a, doc)[u] == if Superseded(doc, a.grants[u]) then Successor(doc, a.grants[u]) else a.grants[u]
    ensures u in a.grants ==> Carried(a, doc)[u] in Keys(doc) || Survives(a, doc, Carried(a, doc)[u])
    ensures u in a.grants && Superseded(doc, a.grants[u]) ==> Carried(a, doc)[u] != a.grants[u]
  {
    hide Keys, Superseded, Successor;
    if u in a.grants && Superseded(doc, a.grants[u]) {
      NotListed(doc, a.grants[u]);
    }
  }

  lemma NotListed(doc: Doc, k: string)
    requires Coherent(doc) && Superseded(doc, k)
    ensures k !in Keys(doc)
  {
    hide Keys;
    var i, j :| SupersededAre(doc, i, j, k);
    assert doc.roles[i].supersedes[j] in doc.roles[i].supersedes;
  }

  // The grant a person ends with; `p` is their directory entry.
  ghost predicate EndsWith(a: Access, doc: Doc, override: Option<string>, r: Access, p: Person) {
    var carried, given := Lookup(Carried(a, doc), p.user), RoleGiven(doc, p);
    GrantOf(r, p.user) == if given.None? then carried
                          else if carried.None? || RederivesEveryone(doc, override) then given
                          else carried
  }

  ghost predicate OnRoster(roster: seq<Person>, u: UserId) {
    exists i :: 0 <= i < |roster| && roster[i].user == u
  }

  lemma SettledByFile(a: Access, doc: Doc, slug: string, override: Option<string>, r: Access, p: Person)
    requires Coherent(doc) && GrantsResolve(a) && doc.assign.Some?
    requires Settled(Unassigned(a, doc).access, r, doc.assign.value, FileScope(slug, override, doc.assign.value), p)
    ensures EndsWith(a, doc, override, r, p)
    ensures r.cutoffs[p.user] == Unassigned(a, doc).access.cutoffs[p.user]
            + (if p.user in a.grants && GrantOf(r, p.user) != Some(Carried(a, doc)[p.user]) then 1 else 0)
  {
    hide SourceFor, Unassigned, Carried;
    var given := SourceFor(doc.assign.value, p).0;
    if given.Some? {
      UnassignedRole(a, doc, given.value);
    }
    UnassignedRole(a, doc, "");
    CarriedGrant(a, doc, p.user);
  }

  lemma SettledPerson(a: Access, doc: Doc, slug: string, override: Option<string>, roster: seq<Person>, i: int)
    requires Coherent(doc) && GrantsResolve(a) && DistinctUsers(roster) && 0 <= i < |roster|
    ensures var r := Applied(a, doc, slug, override, roster).access;
            && EndsWith(a, doc, override, r, roster[i])
            && r.cutoffs[roster[i].user] == Unassigned(a, doc).access.cutoffs[roster[i].user]
               + (if roster[i].user in a.grants && GrantOf(r, roster[i].user) != Some(Carried(a, doc)[roster[i].user])
                  then 1 else 0)
  {
    hide Unassigned, Carried, AssignAll, DistinctUsers, Decide, ModeOf;
    var r := Applied(a, doc, slug, override, roster).access;
    UnassignedRole(a, doc, "");
    CarriedGrant(a, doc, roster[i].user);
    hide Coherent, GrantsResolve;
    if doc.assign.Some? {
      var o := FileScope(slug, override, doc.assign.value);
      AssignAllPointwise(Unassigned(a, doc), doc.assign.value, o, roster);
      SettledByFile(a, doc, slug, override, r, roster[i]);
    }
  }

  lemma UntouchedPerson(a: Access, doc: Doc, slug: string, override: Option<string>, roster: seq<Person>, u: UserId)
    requires DistinctUsers(roster) && !OnRoster(roster, u)
    ensures SameFor(Unassigned(a, doc).access, Applied(a, doc, slug, override, roster).access, u)
  {
    hide Unassigned, AssignAll, DistinctUsers, Decide;
    assert forall i | 0 <= i < |roster| :: roster[i].user != u;
    if doc.assign.Some? {
      AssignAllPointwise(Unassigned(a, doc), doc.assign.value, FileScope(slug, override, doc.assign.value), roster);
    }
  }

  lemma RolesAfterAssignment(a: Access, doc: Doc, slug: string, override: Option<string>, roster: seq<Person>)
    requires DistinctUsers(roster)
    ensures var r := Applied(a, doc, slug, override, roster).access;
            r.roles == Unassigned(a, doc).access.roles && r.catalog == Unassigned(a, doc).access.catalog
  {
    hide Unassigned, AssignAll, DistinctUsers, Decide, Settled, SameFor;
    if doc.assign.Some? {
      AssignAllPointwise(Unassigned(a, doc), doc.assign.value, FileScope(slug, override, doc.assign.value), roster);
    }
  }

  // Someone's token could still carry what they held before.
  ghost predicate AccessChanged(a: Access, r: Access, u: UserId) {
    u in a.grants && !(u in r.grants && r.grants[u] == a.grants[u] && a.grants[u] in a.roles && a.grants[u] in r.roles
                       && r.roles[a.grants[u]].permissions == a.roles[a.grants[u]].permissions)
  }

  // What the import owes `u`, who may have no directory entry: whoever had a role still has exactly
  // one, which exists and is the one `replaces` and then `assign` say; a revocation row is new
  // exactly when the role or its permission list changed.
  ghost predicate Conserved(a: Access, doc: Doc, override: Option<string>, roster: seq<Person>, r: Access, u: UserId) {
    && (u in a.grants ==> u in r.grants)
    && (u in r.grants ==> r.grants[u] in r.roles)
    && (forall i | 0 <= i < |roster| && roster[i].user == u :: EndsWith(a, doc, override, r, roster[i]))
    && (!OnRoster(roster, u) ==> GrantOf(r, u) == Lookup(Carried(a, doc), u))
    && r.cutoffs[u] >= a.cutoffs[u]
    && (r.cutoffs[u] > a.cutoffs[u] <==> AccessChanged(a, r, u))
  }

  lemma ConservesPerson(a: Access, doc: Doc, slug: string, override: Option<string>, roster: seq<Person>, u: UserId)
    requires Coherent(doc) && GrantsResolve(a) && DistinctUsers(roster)
    ensures Conserved(a, doc, override, roster, Applied(a, doc, slug, override, roster).access, u)
  {
    hide Unassigned, Carried, Assigned, DistinctUsers, Applied, Keys, Superseded, Successor, SourceFor;
    var r := Applied(a, doc, slug, override, roster).access;
    CarriedGrant(a, doc, u);
    UnassignedCutoffs(a, doc, u);
    RolesAfterAssignment(a, doc, slug, override, roster);
    UnassignedRole(a, doc, "");
    if u in r.grants {
      UnassignedRole(a, doc, r.grants[u]);
    }
    if u in a.grants {
      UnassignedRole(a, doc, a.grants[u]);
      if Superseded(doc, a.grants[u]) {
        NotListed(doc, a.grants[u]);
      }
    }
    if i :| 0 <= i < |roster| && roster[i].user == u {
      SettledPerson(a, doc, slug, override, roster, i);
      forall j | 0 <= j < |roster| && roster[j].user == u ensures EndsWith(a, doc, override, r, roster[j]) {
        SettledPerson(a, doc, slug, override, roster, j);
      }
    } else {
      UntouchedPerson(a, doc, slug, override, roster, u);
    }
  }

  lemma ImportConservesAccess(a: Access, doc: Doc, slug: string, override: Option<string>, roster: seq<Person>)
    requires Validated(doc) && GrantsResolve(a) && DistinctUsers(roster)
    ensures GrantsResolve(Applied(a, doc, slug, override, roster).access)
    ensures forall u :: Conserved(a, doc, override, roster, Applied(a, doc, slug, override, roster).access, u)
  {
    ValidatedIsCoherent(doc);
    hide Applied, Validated, Conserved, Coherent;
    var r := Applied(a, doc, slug, override, roster).access;
    forall u ensures Conserved(a, doc, override, roster, r, u) {
      ConservesPerson(a, doc, slug, override, roster, u);
    }
    forall u | u in r.grants ensures r.grants[u] in r.roles {
      ConservedResolves(a, doc, override, roster, r, u);
    }
  }

  lemma ConservedResolves(a: Access, doc: Doc, override: Option<string>, roster: seq<Person>, r: Access, u: UserId)
    requires Conserved(a, doc, override, roster, r, u) && u in r.grants
    ensures r.grants[u] in r.roles
  {}

  // ---------------------------------------------------------------- importing again

  // Nothing in a plan but warnings and people left as they are.
  predicate Quiet(plan: Plan) {
    && !plan.catalogChanged && plan.created == {} && plan.updated == {} && plan.removed == {}
    && plan.moved == {} && plan.given == {} && plan.changed == {}
  }

  // The file's own roles are in place and its old roles are gone.
  ghost predicate InPlace(a: Access, doc: Doc) {
    && a.catalog == doc.permissions
    && (forall k | k in Keys(doc) :: k in a.roles && a.roles[k] == DeclaredRole(doc, k))
    && (forall k | k in a.roles :: !Superseded(doc, k))
  }

  // Unlisted roles nobody holds, which this import would remove.
  ghost function Emptied(a: Access, doc: Doc): set<string> {
    if doc.removeUnlisted then Unlisted(a.roles.Keys, doc) - Held(a, Unlisted(a.roles.Keys, doc)) else {}
  }

  lemma NothingToDeclare(a: Access, doc: Doc)
    requires InPlace(a, doc)
    ensures var n := |doc.roles|;
            Relisted(a, doc, n) == {} && Reworded(a, doc, n) == {} && DeclaredRoles(a, doc, n) == a.roles
    ensures KeysBefore(doc, |doc.roles|) - a.roles.Keys == {}
  {
    hide Keys, Superseded, DeclaredRole;
    var n := |doc.roles|;
    assert KeysBefore(doc, n) == Keys(doc);
    hide KeysBefore;
    assert Relisted(a, doc, n) == {};
    assert Reworded(a, doc, n) == {};
    assert DeclaredRoles(a, doc, n) == a.roles;
  }

  lemma DeclareInPlace(a: Access, doc: Doc)
    requires InPlace(a, doc)
    ensures Declared(Import(a, EMPTY_PLAN), doc) == Import(a, EMPTY_PLAN)
  {
    NobodyHolds(a);
    hide Keys, Holders, KeysBefore, Superseded, Relisted, Reworded, DeclaredRoles;
    NothingToDeclare(a, doc);
  }

  lemma MoveNothing(s: Import)
    ensures MoveAll(s, map[]) == s
  {
    var none: map<string, string> := map[];
    assert Holders(s.access, none.Keys) == {} && Follow(none, s.access.grants) == s.access.grants;
    assert MovesOf(none, s.access.grants) == {};
    assert s.access.roles - none.Keys == s.access.roles;
  }

  lemma RerunUnassigned(a: Access, doc: Doc)
    requires InPlace(a, doc)
    ensures Unassigned(a, doc).access == a.(roles := a.roles - Emptied(a, doc))
    ensures Quiet(Unassigned(a, doc).plan) <==> Emptied(a, doc) == {}
    ensures Unassigned(a, doc).plan.(removed := {}, warnings := {}) == EMPTY_PLAN
  {
    DeclareInPlace(a, doc);
    assert Moves(a.roles.Keys, doc) == map[];
    MoveNothing(Import(a, EMPTY_PLAN));
    assert a.roles - {} == a.roles;
    hide InPlace, Declared, MoveAll, Unlisted, Held;
  }

  lemma {:induction false} AssignIdle(s: Import, assign: Assign, o: Scope, roster: seq<Person>)
    requires forall i | 0 <= i < |roster| :: var d := Decide(s.access, assign, o, roster[i]); !d.Give? && !d.Switch?
    ensures AssignAll(s, assign, o, roster).access == s.access
    ensures AssignAll(s, assign, o, roster).plan.(kept := s.plan.kept, warnings := s.plan.warnings) == s.plan
  {
    hide Decide;
    if roster != [] {
      assert forall i | 0 <= i < |roster| - 1 :: roster[..|roster| - 1][i] == roster[i];
      AssignIdle(s, assign, o, roster[..|roster| - 1]);
    }
  }

  lemma FirstRunInPlace(a: Access, doc: Doc, slug: string, override: Option<string>, roster: seq<Person>)
    requires Coherent(doc) && DistinctUsers(roster)
    ensures InPlace(Applied(a, doc, slug, override, roster).access, doc)
  {
    hide Unassigned, Keys, Superseded, Applied, DeclaredRole, Carried, Coherent;
    var r := Applied(a, doc, slug, override, roster).access;
    RolesAfterAssignment(a, doc, slug, override, roster);
    UnassignedRole(a, doc, "");
    forall k ensures k in Keys(doc) ==> k in r.roles && r.roles[k] == DeclaredRole(doc, k)
             ensures k in r.roles ==> !Superseded(doc, k)
    {
      UnassignedRole(a, doc, k);
      if Superseded(doc, k) {
        NotListed(doc, k);
      }
    }
  }

  // After one import, `assign` has nothing left to do.
  lemma SecondRunIdle(a: Access, doc: Doc, slug: string, override: Option<string>, r: Access, p: Person, again: Access)
    requires doc.assign.Some? && EndsWith(a, doc, override, r, p) && again.grants == r.grants
    ensures var d := Decide(again, doc.assign.value, FileScope(slug, override, doc.assign.value), p);
            !d.Give? && !d.Switch?
  {
    hide SourceFor, Carried;
  }

  // Importing the same file again only ever removes the roles the first import emptied.
  lemma SecondImport(a: Access, doc: Doc, slug: string, override: Option<string>, roster: seq<Person>)
    requires Coherent(doc) && GrantsResolve(a) && DistinctUsers(roster)
    ensures var first := Applied(a, doc, slug, override, roster).access;
            var again := Applied(first, doc, slug, override, roster);
            && again.access == first.(roles := first.roles - Emptied(first, doc))
            && (Quiet(again.plan) <==> Emptied(first, doc) == {})
  {
    hide Coherent, GrantsResolve, DistinctUsers, EndsWith, Decide, FileScope, Unassigned, InPlace, AssignAll, Emptied,
      Unmatched;
    var first := Applied(a, doc, slug, override, roster).access;
    FirstRunInPlace(a, doc, slug, override, roster);
    RerunUnassigned(first, doc);
    var s := Unassigned(first, doc);
    if doc.assign.Some? {
      var o := FileScope(slug, override, doc.assign.value);
      forall i | 0 <= i < |roster|
        ensures var d := Decide(s.access, doc.assign.value, o, roster[i]); !d.Give? && !d.Switch?
      {
        SettledPerson(a, doc, slug, override, roster, i);
        SecondRunIdle(a, doc, slug, override, first, roster[i], s.access);
      }
      AssignIdle(s, doc.assign.value, o, roster);
    }
  }

  // The first import moves the last holders of the unlisted role `k` elsewhere, after the pass that
  // would have removed it.
  ghost predicate Empties(a: Access, doc: Doc, override: Option<string>, roster: seq<Person>, k: string) {
    && doc.removeUnlisted && RederivesEveryone(doc, override)
    && k in a.grants.Values && k !in Keys(doc) && !Superseded(doc, k)
    && forall u | u in a.grants && a.grants[u] == k :: Rederived(doc, roster, u)
  }

  ghost predicate Rederived(doc: Doc, roster: seq<Person>, u: UserId) {
    exists i :: 0 <= i < |roster| && roster[i].user == u && RoleGiven(doc, roster[i]).Some?
  }

  // An unlisted role keeps a holder exactly when some holder is not given another role.
  lemma UnlistedHolder(a: Access, doc: Doc, slug: string, override: Option<string>, roster: seq<Person>, k: string,
      u: UserId)
    requires Coherent(doc) && GrantsResolve(a) && DistinctUsers(roster) && k !in Keys(doc) && !Superseded(doc, k)
    ensures GrantOf(Applied(a, doc, slug, override, roster).access, u) == Some(k) <==>
            u in a.grants && a.grants[u] == k && !(RederivesEveryone(doc, override) && Rederived(doc, roster, u))
  {
    hide Applied, Keys, Superseded, Successor, Carried, SourceFor, RederivesEveryone;
    CarriedGrant(a, doc, u);
    ConservesPerson(a, doc, slug, override, roster, u);
    hide AccessChanged;
  }

  lemma StillHeld(a: Access, doc: Doc, slug: string, override: Option<string>, roster: seq<Person>, k: string)
    requires Coherent(doc) && GrantsResolve(a) && DistinctUsers(roster) && k !in Keys(doc) && !Superseded(doc, k)
    ensures k in Applied(a, doc, slug, override, roster).access.grants.Values <==>
            exists u :: u in a.grants && a.grants[u] == k
              && !(RederivesEveryone(doc, override) && Rederived(doc, roster, u))
  {
    hide Applied, Keys, Superseded, RederivesEveryone, Rederived, Coherent, GrantsResolve;
    var first := Applied(a, doc, slug, override, roster).access;
    forall u
      ensures GrantOf(first, u) == Some(k) <==>
              u in a.grants && a.grants[u] == k && !(RederivesEveryone(doc, override) && Rederived(doc, roster, u))
    {
      UnlistedHolder(a, doc, slug, override, roster, k, u);
    }
    assert forall u :: u in first.grants && first.grants[u] == k <==> GrantOf(first, u) == Some(k);
  }

  lemma EmptiedIff(a: Access, doc: Doc, slug: string, override: Option<string>, roster: seq<Person>, k: string)
    requires Coherent(doc) && GrantsResolve(a) && DistinctUsers(roster)
    ensures k in Emptied(Applied(a, doc, slug, override, roster).access, doc) <==> Empties(a, doc, override, roster, k)
  {
    hide Applied, Keys, Superseded, RederivesEveryone, Rederived, Coherent, GrantsResolve, Carried;
    if k !in Keys(doc) && !Superseded(doc, k) {
      RolesAfterAssignment(a, doc, slug, override, roster);
      UnassignedRole(a, doc, k);
      StillHeld(a, doc, slug, override, roster, k);
      UnlistedCarried(a, doc, k);
    }
  }

  // `replaces` neither adds holders to an unlisted role nor takes any away.
  lemma UnlistedCarried(a: Access, doc: Doc, k: string)
    requires Coherent(doc) && GrantsResolve(a) && k !in Keys(doc) && !Superseded(doc, k)
    ensures k in Carried(a, doc).Values <==> k in a.grants.Values
    ensures k in a.grants.Values ==> k in a.roles
  {
    hide Keys, Superseded, Successor, Carried;
    forall u ensures u in Carried(a, doc) && Carried(a, doc)[u] == k <==> u in a.grants && a.grants[u] == k {
      CarriedGrant(a, doc, u);
    }
  }

  // A second import of the same file is quiet, and changes nothing, exactly when the first did not
  // empty an unlisted role it was asked to remove. It never touches a grant or writes a revocation row.
  lemma ReimportIsQuietIff(a: Access, doc: Doc, slug: string, override: Option<string>, roster: seq<Person>)
    requires Validated(doc) && GrantsResolve(a) && DistinctUsers(roster)
    ensures var first := Applied(a, doc, slug, override, roster).access;
            var again := Applied(first, doc, slug, override, roster);
            && (Quiet(again.plan) <==> !exists k :: Empties(a, doc, override, roster, k))
            && (Quiet(again.plan) <==> again.access == first)
            && again.access.grants == first.grants && again.access.cutoffs == first.cutoffs
  {
    hide Validated, Coherent, Applied, Empties, Emptied, Quiet, GrantsResolve, DistinctUsers;
    ValidatedIsCoherent(doc);
    var first := Applied(a, doc, slug, override, roster).access;
    SecondImport(a, doc, slug, override, roster);
    forall k ensures k in Emptied(first, doc) <==> Empties(a, doc, override, roster, k) {
      EmptiedIff(a, doc, slug, override, roster, k);
    }
    EmptiedExist(first, doc);
  }

  lemma EmptiedExist(a: Access, doc: Doc)
    ensures Emptied(a, doc) == {} <==> a.(roles := a.roles - Emptied(a, doc)) == a
  {
    hide Held;
    assert a.roles - {} == a.roles;
    assert Emptied(a, doc) <= a.roles.Keys;
    if x :| x in Emptied(a, doc) {
      assert x in a.roles && x !in a.roles - Emptied(a, doc);
    }
  }

  lemma NothingLeftToEmpty(a: Access, doc: Doc, slug: string, override: Option<string>, roster: seq<Person>, k: string)
    requires Coherent(doc) && GrantsResolve(a) && DistinctUsers(roster)
    ensures !Empties(Applied(a, doc, slug, override, roster).access, doc, override, roster, k)
  {
    hide Coherent, Applied, GrantsResolve, RederivesEveryone, Rederived, Keys, Superseded;
    var first := Applied(a, doc, slug, override, roster).access;
    if k !in Keys(doc) && !Superseded(doc, k) {
      forall u | u in first.grants && first.grants[u] == k
        ensures !(RederivesEveryone(doc, override) && Rederived(doc, roster, u))
      {
        UnlistedHolder(a, doc, slug, override, roster, k, u);
      }
    }
  }

  // A third import has nothing left to remove, whatever the second one found.
  lemma ThirdImportIsQuiet(a: Access, doc: Doc, slug: string, override: Option<string>, roster: seq<Person>)
    requires Validated(doc) && GrantsResolve(a) && DistinctUsers(roster)
    ensures var first := Applied(a, doc, slug, override, roster).access;
            var second := Applied(first, doc, slug, override, roster).access;
            var third := Applied(second, doc, slug, override, roster);
            Quiet(third.plan) && third.access == second
  {
    ValidatedIsCoherent(doc);
    hide Validated, Coherent, Applied, Quiet, GrantsResolve, Conserved, Empties;
    var first := Applied(a, doc, slug, override, roster).access;
    ImportConservesAccess(a, doc, slug, override, roster);
    forall k { NothingLeftToEmpty(a, doc, slug, override, roster, k); }
    ReimportIsQuietIff(first, doc, slug, override, roster);
  }

  // A file whose second import still removes a role.
  const LEFTOVER := Access(map[], map["old" := Role("O", None, false, [], 10)], map[1 := "old"], multiset{})
  const CLEANUP := Doc(Some(FORMAT), Some("s"), map[], [RoleSpec("new", "N", None, true, [], [])], true,
                       Some(Assign(Some("all"), [], [], Some("new"))))
  const STAFF := [Person(1, "E1", None, None, false, false, false, None, None)]

  lemma CleanupIsValid()
    ensures Validated(CLEANUP)
  {
    assert RoleKeyOk("new");
    assert Strip("N") == "N";
    assert Normal(CLEANUP).roles == CLEANUP.roles;
    assert Seen(CLEANUP) == {"new"} by {
      assert CLEANUP.roles[0].key in Seen(CLEANUP);
    }
    hide Seen, RoleKeyOk, Strip;
  }

  lemma ReimportCanRemoveMore()
    ensures Validated(CLEANUP) && GrantsResolve(LEFTOVER) && DistinctUsers(STAFF)
    ensures var first := Applied(LEFTOVER, CLEANUP, "s", None, STAFF).access;
            !Quiet(Applied(first, CLEANUP, "s", None, STAFF).plan)
  {
    CleanupIsValid();
    hide Validated, Quiet, Applied;
    ReimportIsQuietIff(LEFTOVER, CLEANUP, "s", None, STAFF);
    assert LEFTOVER.grants[1] == "old";
    assert STAFF[0].user == 1;
    assert RoleGiven(CLEANUP, STAFF[0]) == Some("new");
    assert Rederived(CLEANUP, STAFF, 1);
    assert "old" !in Keys(CLEANUP);
    assert Empties(LEFTOVER, CLEANUP, None, STAFF, "old");
  }

  // ---------------------------------------------------------------- export

  // Service.roles, ordered by sort_order; ties in any order.
  ghost predicate Listing(roles: map<string, Role>, keys: seq<string>) {
    && Distinct(keys) && (forall k :: k in keys <==> k in roles)
    && forall i, j | 0 <= i < j < |keys| :: roles[keys[i]].sortOrder <= roles[keys[j]].sortOrder
  }

  function ExportedRole(k: string, r: Role): RoleSpec {
    RoleSpec(k, r.name, r.description, r.isDefault, r.permissions, [])
  }

  function Exported(a: Access, slug: string, keys: seq<string>): Doc
    requires forall k | k in keys :: k in a.roles
  {
    Doc(Some(FORMAT), Some(slug), a.catalog,
        seq(|keys|, i requires 0 <= i < |keys| => ExportedRole(keys[i], a.roles[keys[i]])), false, None)
  }

  // The declarations of a file alone.
  function Declarations(doc: Doc): Doc {
    doc.(roles := seq(|doc.roles|, i requires 0 <= i < |doc.roles| => doc.roles[i].(supersedes := [])),
      removeUnlisted := false, assign := None)
  }

  // Two lists of the same distinct names agree when neither ever reverses the other's order.
  lemma {:induction false} SameOrder(names: seq<string>, keys: seq<string>)
    requires Distinct(names) && Distinct(keys) && forall k :: k in keys <==> k in names
    requires forall i, j, p, q | 0 <= i < j < |keys| && 0 <= p < |names| && 0 <= q < |names| && names[p] == keys[i]
        && names[q] == keys[j] :: p <= q
    ensures keys == names
  {
    assert names != [] ==> names[0] in keys;
    assert keys != [] ==> keys[0] in names;
    if names != [] {
      var m :| 0 <= m < |keys| && keys[m] == names[0];
      var p :| 0 <= p < |names| && names[p] == keys[0];
      assert p == 0;
      var names', keys' := names[1..], keys[1..];
      forall k ensures k in keys' <==> k in names' {
        assert k in keys' <==> k in keys && k != keys[0] by { InTail(keys, k); }
        assert k in names' <==> k in names && k != names[0] by { InTail(names, k); }
      }
      SameOrder(names', keys');
    }
  }

  lemma InTail(s: seq<string>, k: string)
    requires Distinct(s) && s != []
    ensures k in s[1..] <==> k in s && k != s[0]
  {
    assert s == [s[0]] + s[1..];
  }

  function RoleKeys(doc: Doc): (keys: seq<string>)
    ensures |keys| == |doc.roles| && forall i | 0 <= i < |keys| :: keys[i] == doc.roles[i].key
  {
    seq(|doc.roles|, i requires 0 <= i < |doc.roles| => doc.roles[i].key)
  }

  // A listing of exactly the declared roles is the file's own order.
  lemma ListingIsFileOrder(doc: Doc, roles: map<string, Role>, keys: seq<string>)
    requires DistinctKeys(doc) && Listing(roles, keys) && roles.Keys == Keys(doc)
    requires forall i | 0 <= i < |doc.roles| :: roles[doc.roles[i].key].sortOrder == (i + 1) * 10
    ensures keys == RoleKeys(doc)
  {
    var names := RoleKeys(doc);
    forall k ensures k in keys <==> k in names {
      assert k in Keys(doc) <==> k in names;
    }
    hide Keys;
    forall i, j, p, q | 0 <= i < j < |keys| && 0 <= p < |names| && 0 <= q < |names| && names[p] == keys[i]
      && names[q] == keys[j]
      ensures p <= q
    {
      assert roles[keys[i]].sortOrder == (p + 1) * 10 && roles[keys[j]].sortOrder == (q + 1) * 10;
    }
    SameOrder(names, keys);
  }

  lemma DeclarationsAreValid(doc: Doc)
    requires Validated(doc)
    ensures Validated(Declarations(doc))
  {
    var d := Declarations(doc);
    assert forall i | 0 <= i < |doc.roles| :: d.roles[i] == doc.roles[i].(supersedes := []);
    forall i | 0 <= i < |d.roles| ensures NormalRole(d.roles[i]) == d.roles[i] {
      assert NormalRole(doc.roles[i]) == Normal(doc).roles[i];
    }
    assert Normal(d).roles == d.roles;
    hide RoleKeyOk, NormalRole, Strip, PermissionKeyOk;
    forall i ensures Keyed(d, i) <==> Keyed(doc, i) {}
    forall p ensures !Complaint(d, None, p) {
      assert !Complaint(doc, None, p);
      DeclarationsComplain(doc, p);
    }
  }

  lemma SameDeclarations(doc: Doc)
    ensures var d := Declarations(doc);
            && |d.roles| == |doc.roles| && d.permissions == doc.permissions
            && (forall i | 0 <= i < |doc.roles| :: d.roles[i] == doc.roles[i].(supersedes := []))
            && (forall i :: Keyed(d, i) <==> Keyed(doc, i)) && (forall i :: Default(d, i) <==> Default(doc, i))
            && (forall i | 0 <= i < |doc.roles| :: HasUnknown(d, d.roles[i]) <==> HasUnknown(doc, doc.roles[i]))
  {
    hide RoleKeyOk;
  }

  lemma DeclarationsListed(doc: Doc, i: nat)
    ensures RoleComplaint(Declarations(doc), ListedTwice(i)) <==> RoleComplaint(doc, ListedTwice(i))
  {
    var d := Declarations(doc);
    SameDeclarations(doc);
    assert Keyed(doc, i) ==> i < |doc.roles|;
    hide RoleKeyOk, Strip, HasUnknown, Keyed, Default, Declarations;
    assert forall j | 0 <= j < |doc.roles| :: d.roles[j].key == doc.roles[j].key;
  }

  lemma DeclarationsComplain(doc: Doc, p: Problem)
    ensures RoleComplaint(Declarations(doc), p) <==> RoleComplaint(doc, p)
    ensures DefaultComplaint(Declarations(doc), p) <==> DefaultComplaint(doc, p)
    ensures !ClashComplaint(Declarations(doc), p)
  {
    SameDeclarations(doc);
    hide RoleKeyOk, Strip, HasUnknown, Default, Declarations, Seen;
    match p
    case ListedTwice(i) =>
      hide RoleComplaint;
      DeclarationsListed(doc, i);
    case _ =>
  }

  lemma ValidatedFormat(doc: Doc)
    requires Validated(doc)
    ensures doc.format == Some(FORMAT)
  {}

  // Export undoes import: after a file that leaves no unlisted role, export gives back the file's
  // declarations; they pass validation as they are; and importing them changes nothing at all.
  lemma ExportUndoesImport(a: Access, doc: Doc, slug: string, override: Option<string>, roster: seq<Person>,
      keys: seq<string>)
    requires Validated(doc) && DistinctUsers(roster) && doc.service == Some(slug)
    requires var r := Applied(a, doc, slug, override, roster).access;
             r.roles.Keys == Keys(doc) && Listing(r.roles, keys)
    ensures var r := Applied(a, doc, slug, override, roster).access;
            && (forall k | k in keys :: k in r.roles)
            && Exported(r, slug, keys) == Declarations(doc)
            && Validated(Declarations(doc))
            && forall o, someone :: Applied(r, Declarations(doc), slug, o, someone) == Import(r, EMPTY_PLAN)
  {
    ValidatedIsCoherent(doc);
    ValidatedFormat(doc);
    hide Applied, Validated, Listing, Exported, Keys, RoleOf, Declarations, Emptied, InPlace;
    var r := Applied(a, doc, slug, override, roster).access;
    RolesAfterDeclaration(a, doc, slug, override, roster);
    DeclarationsAreValid(doc);
    DeclarationsInPlace(r, doc);
    ExportedDeclarations(r, doc, slug, keys);
    hide Coherent, DistinctKeys;
    forall o, someone ensures Applied(r, Declarations(doc), slug, o, someone) == Import(r, EMPTY_PLAN) {
      DeclarationsChangeNothing(r, doc, slug, o, someone);
    }
  }

  lemma ExportedDeclarations(r: Access, doc: Doc, slug: string, keys: seq<string>)
    requires DistinctKeys(doc) && doc.service == Some(slug) && doc.format == Some(FORMAT)
    requires r.catalog == doc.permissions && r.roles.Keys == Keys(doc) && Listing(r.roles, keys)
    requires forall i | 0 <= i < |doc.roles| ::
        doc.roles[i].key in r.roles && r.roles[doc.roles[i].key] == RoleOf(doc.roles[i], i)
    ensures (forall k | k in keys :: k in r.roles) && Exported(r, slug, keys) == Declarations(doc)
  {
    ListingIsFileOrder(doc, r.roles, keys);
    assert Exported(r, slug, keys).roles == Declarations(doc).roles;
  }

  lemma RolesAfterDeclaration(a: Access, doc: Doc, slug: string, override: Option<string>, roster: seq<Person>)
    requires Coherent(doc) && DistinctUsers(roster)
    ensures var r := Applied(a, doc, slug, override, roster).access;
            && r.catalog == doc.permissions
            && forall i | 0 <= i < |doc.roles| ::
              doc.roles[i].key in r.roles && r.roles[doc.roles[i].key] == RoleOf(doc.roles[i], i)
  {
    FirstRunInPlace(a, doc, slug, override, roster);
    hide Applied, DeclaredRole;
    forall i | 0 <= i < |doc.roles|
      ensures var r := Applied(a, doc, slug, override, roster).access;
              doc.roles[i].key in r.roles && r.roles[doc.roles[i].key] == RoleOf(doc.roles[i], i)
    {
      IndexOfKey(doc, i);
    }
  }

  // The declarations of a file already applied, when nothing else is there.
  lemma DeclarationsInPlace(r: Access, doc: Doc)
    requires DistinctKeys(doc) && r.catalog == doc.permissions && r.roles.Keys == Keys(doc)
    requires forall i | 0 <= i < |doc.roles| ::
        doc.roles[i].key in r.roles && r.roles[doc.roles[i].key] == RoleOf(doc.roles[i], i)
    ensures InPlace(r, Declarations(doc)) && Emptied(r, Declarations(doc)) == {}
  {
    var d := Declarations(doc);
    assert DistinctKeys(d);
    forall k | k in Keys(d) ensures k in r.roles && r.roles[k] == DeclaredRole(d, k) {
      var i :| 0 <= i < |d.roles| && d.roles[i].key == k;
      assert d.roles[i] == doc.roles[i].(supersedes := []);
      IndexOfKey(d, i);
    }
    hide DeclaredRole, Keys;
    assert forall k :: !Superseded(d, k);
  }

  lemma DeclarationsChangeNothing(r: Access, doc: Doc, slug: string, override: Option<string>, roster: seq<Person>)
    requires InPlace(r, Declarations(doc)) && Emptied(r, Declarations(doc)) == {}
    ensures Applied(r, Declarations(doc), slug, override, roster) == Import(r, EMPTY_PLAN)
  {
    var d := Declarations(doc);
    DeclareInPlace(r, d);
    assert Moves(r.roles.Keys, d) == map[];
    MoveNothing(Import(r, EMPTY_PLAN));
    hide Declared, MoveAll, InPlace;
  }
}
