/** The grant pass of the people sheet, column by column (backend/app/people_sheet.py:653-697). */
module PeopleSheet {
  import opened Options
  import opened Text
  import opened RoleAssignment

  const NO_ACCESS := "none"

  datatype ServiceCol = ServiceCol(slug: string, lowest: Option<string>)

  // An active row of the sheet, with the account behind it; `cells` is by service slug.
  datatype SheetUser = SheetUser(person: Person, cells: map<string, string>)

  // The defaults tab: a department's role per service slug.
  type Defaults = seq<(string, map<string, string>)>

  function Cell(x: SheetUser, slug: string): string {
    if slug in x.cells then x.cells[slug] else ""
  }

  predicate Filled(x: SheetUser, slug: string) {
    Cell(x, slug) != "" && Cell(x, slug) != NO_ACCESS
  }

  function Explicit(sheet: seq<SheetUser>, slug: string): seq<(string, string)> {
    if sheet == [] then []
    else
      var x := sheet[|sheet| - 1];
      Explicit(sheet[..|sheet| - 1], slug) + (if Filled(x, slug) then [(x.person.code, Cell(x, slug))] else [])
  }

  predicate HasDefault(d: (string, map<string, string>), slug: string) {
    slug in d.1 && d.1[slug] != ""
  }

  function DepartmentRule(department: string, role: string): Rule {
    Rule(None, None, None, None, Some([department]), Some(role), {})
  }

  function DepartmentRules(defaults: Defaults, slug: string): seq<Rule> {
    if defaults == [] then []
    else
      var d := defaults[|defaults| - 1];
      DepartmentRules(defaults[..|defaults| - 1], slug)
        + (if HasDefault(d, slug) then [DepartmentRule(d.0, d.1[slug])] else [])
  }

  function SheetAssign(sheet: seq<SheetUser>, defaults: Defaults, col: ServiceCol): Assign {
    Assign(None, DepartmentRules(defaults, col.slug), Explicit(sheet, col.slug), col.lowest)
  }

  function Users(sheet: seq<SheetUser>): set<UserId> {
    set i | 0 <= i < |sheet| :: sheet[i].person.user
  }

  function SaidNone(sheet: seq<SheetUser>, slug: string): set<UserId> {
    set i | 0 <= i < |sheet| && Cell(sheet[i], slug) == NO_ACCESS :: sheet[i].person.user
  }

  function SheetScope(sheet: seq<SheetUser>, col: ServiceCol, skip: set<string>): Scope {
    Scope(col.slug, "missing", true, Some(Users(sheet) - SaidNone(sheet, col.slug)), skip)
  }

  predicate Unticked(x: SheetUser, slug: string, skip: set<string>) {
    Lower(x.person.code + ":" + slug) in skip
  }

  // Whose grant the `none` cells take away.
  function Dropped(a: Access, sheet: seq<SheetUser>, slug: string, skip: set<string>): set<UserId> {
    set i | 0 <= i < |sheet| && Cell(sheet[i], slug) == NO_ACCESS && sheet[i].person.user in a.grants
      && !Unticked(sheet[i], slug, skip)
      :: sheet[i].person.user
  }

  function Drop(a: Access, dropped: set<UserId>): Access {
    a.(grants := a.grants - dropped, cutoffs := a.cutoffs + multiset(dropped))
  }

  // One column of the sheet.
  function ColumnApplied(a: Access, sheet: seq<SheetUser>, defaults: Defaults, col: ServiceCol, skip: set<string>,
      roster: seq<Person>): Access
  {
    if sheet == [] then a
    else
      var r := Assigned(Import(a, EMPTY_PLAN), SheetAssign(sheet, defaults, col), SheetScope(sheet, col, skip),
        roster).access;
      Drop(r, Dropped(r, sheet, col.slug, skip))
  }

  // ---------------------------------------------------------------- the pass, row by row

  ghost predicate DistinctPeople(sheet: seq<SheetUser>) {
    forall i, j | 0 <= i < j < |sheet| :: sheet[i].person.user != sheet[j].person.user
  }

  method DropRows(db: ServiceAccess, sheet: seq<SheetUser>, slug: string, skip: set<string>)
    returns (dropped: set<UserId>)
    requires DistinctPeople(sheet)
    modifies db`grants, db`cutoffs
    ensures dropped == Dropped(old(db.View()).access, sheet, slug, skip)
    ensures db.View().access == Drop(old(db.View()).access, dropped)
  {
    ghost var before := db.View().access;
    dropped := {};
    var grants := db.grants;
    for i := 0 to |sheet|
      invariant dropped == Dropped(before, sheet[..i], slug, skip)
      invariant grants == before.grants - dropped
      invariant db.grants == before.grants && db.cutoffs == before.cutoffs
    {
      var x := sheet[i];
      assert forall k | 0 <= k < i :: sheet[..i][k] == sheet[k] && sheet[k].person.user != x.person.user;
      assert forall k | 0 <= k < i + 1 :: sheet[..i + 1][k] == sheet[k];
      if Cell(x, slug) == NO_ACCESS && x.person.user in db.grants && Lower(x.person.code + ":" + slug) !in skip {
        grants := grants - {x.person.user};
        dropped := dropped + {x.person.user};
      }
    }
    assert sheet[..|sheet|] == sheet;
    db.grants, db.cutoffs := grants, db.cutoffs + multiset(dropped);
  }

  method ApplyColumn(db: ServiceAccess, sheet: seq<SheetUser>, defaults: Defaults, col: ServiceCol, skip: set<string>,
      roster: seq<Person>)
    returns (dropped: set<UserId>)
    requires DistinctPeople(sheet)
    modifies db
    ensures db.View().access == ColumnApplied(old(db.View()).access, sheet, defaults, col, skip, roster)
    ensures db.roles == old(db.roles) && db.catalog == old(db.catalog)
  {
    hide AssignAll, Unmatched, Explicit, DepartmentRules, Dropped;
    dropped := {};
    if sheet == [] {
      return;
    }
    db.plan := EMPTY_PLAN;
    var assign := Assign(None, DepartmentRules(defaults, col.slug), Explicit(sheet, col.slug), col.lowest);
    var only := Users(sheet) - SaidNone(sheet, col.slug);
    ghost var before := db.View();
    db.AssignRoles(assign, Scope(col.slug, "missing", true, Some(only), skip), roster);
    AssignedRoles(before, assign, Scope(col.slug, "missing", true, Some(only), skip), roster);
    dropped := DropRows(db, sheet, col.slug, skip);
  }

  lemma {:induction false} AssignedRoles(s: Import, assign: Assign, o: Scope, roster: seq<Person>)
    ensures AssignAll(s, assign, o, roster).access.roles == s.access.roles
    ensures AssignAll(s, assign, o, roster).access.catalog == s.access.catalog
  {
    hide Decide;
    if roster != [] {
      AssignedRoles(s, assign, o, roster[..|roster| - 1]);
    }
  }

  // ---------------------------------------------------------------- precedence

  // No employee code on the sheet is, ignoring case, someone else's code or e-mail address.
  ghost predicate CodesApart(sheet: seq<SheetUser>) {
    && (forall i | 0 <= i < |sheet| :: sheet[i].person.code != "")
    && forall i, j | 0 <= i < |sheet| && 0 <= j < |sheet| && i != j ::
      Lower(sheet[i].person.code) !in Idents(sheet[j].person)
  }

  ghost predicate OnDirectory(sheet: seq<SheetUser>, roster: seq<Person>) {
    forall i | 0 <= i < |sheet| :: sheet[i].person in roster
  }

  // The first department on the defaults tab that is the person's and names a role for the service.
  function DepartmentDefault(defaults: Defaults, slug: string, p: Person): Option<string> {
    if defaults == [] then None
    else
      var d := defaults[|defaults| - 1];
      var earlier := DepartmentDefault(defaults[..|defaults| - 1], slug, p);
      if earlier.Some? then earlier
      else if HasDefault(d, slug) && p.department == Some(d.0) then Some(d.1[slug]) else None
  }

  // What an empty cell falls back to for someone with no role yet.
  function Fallback(defaults: Defaults, col: ServiceCol, p: Person): Option<string> {
    var d := DepartmentDefault(defaults, col.slug, p);
    if d.Some? then d else if col.lowest == Some("") then None else col.lowest
  }

  function IfExists(a: Access, role: Option<string>, otherwise: Option<string>): Option<string> {
    if role.Some? && role.value in a.roles then role else otherwise
  }

  // The sheet's promise, cell by cell.
  function Precedence(a: Access, x: SheetUser, defaults: Defaults, col: ServiceCol): Option<string> {
    var now := GrantOf(a, x.person.user);
    if Cell(x, col.slug) == NO_ACCESS then None
    else if Filled(x, col.slug) then IfExists(a, Some(Cell(x, col.slug)), now)
    else if now.Some? then now
    else IfExists(a, Fallback(defaults, col, x.person), None)
  }

  lemma {:induction false} NobodyNamed(sheet: seq<SheetUser>, slug: string, ident: string)
    requires forall i | 0 <= i < |sheet| :: Lower(sheet[i].person.code) != ident
    ensures NamedRole(Explicit(sheet, slug), ident).None?
  {
    hide Lower, Filled, Cell;
    if sheet != [] {
      var front := Explicit(sheet[..|sheet| - 1], slug);
      NobodyNamed(sheet[..|sheet| - 1], slug, ident);
      if Filled(sheet[|sheet| - 1], slug) {
        assert Explicit(sheet, slug)[..|front|] == front;
      } else {
        assert Explicit(sheet, slug) == front;
      }
    }
  }

  lemma {:induction false} OnlyNamed(sheet: seq<SheetUser>, slug: string, ident: string, j: int)
    requires 0 <= j < |sheet| && forall i | 0 <= i < |sheet| && i != j :: Lower(sheet[i].person.code) != ident
    ensures NamedRole(Explicit(sheet, slug), ident) ==
            if Lower(sheet[j].person.code) == ident && Filled(sheet[j], slug) then Some(Cell(sheet[j], slug)) else None
  {
    hide Lower, Filled, Cell;
    var n := |sheet| - 1;
    var front := Explicit(sheet[..n], slug);
    if j == n {
      NobodyNamed(sheet[..n], slug, ident);
    } else {
      OnlyNamed(sheet[..n], slug, ident, j);
    }
    if Filled(sheet[n], slug) {
      assert Explicit(sheet, slug)[..|front|] == front;
    } else {
      assert Explicit(sheet, slug) == front;
    }
  }

  lemma {:induction false} DepartmentRulesFirst(defaults: Defaults, slug: string, p: Person)
    ensures var r := FirstRule(DepartmentRules(defaults, slug), p);
            DepartmentDefault(defaults, slug, p) == if r.Some? then r.value.role else None
    ensures forall i | 0 <= i < |DepartmentRules(defaults, slug)| :: DepartmentRules(defaults, slug)[i].role.Some?
  {
    if defaults != [] {
      var n := |defaults| - 1;
      DepartmentRulesFirst(defaults[..n], slug, p);
      var d := defaults[n];
      if HasDefault(d, slug) {
        FirstRuleAppend(DepartmentRules(defaults[..n], slug), DepartmentRule(d.0, d.1[slug]), p);
      } else {
        assert DepartmentRules(defaults, slug) == DepartmentRules(defaults[..n], slug);
      }
    }
  }

  lemma {:induction false} FirstRuleAppend(rules: seq<Rule>, rule: Rule, p: Person)
    ensures FirstRule(rules + [rule], p) ==
            if FirstRule(rules, p).Some? then FirstRule(rules, p) else if RuleMatches(rule, p) then Some(rule) else None
  {
    hide RuleMatches;
    if rules == [] {
      assert rules + [rule] == [rule];
      assert [rule][1..] == [];
    } else {
      assert (rules + [rule])[1..] == rules[1..] + [rule];
      FirstRuleAppend(rules[1..], rule, p);
    }
  }

  lemma CellNames(sheet: seq<SheetUser>, slug: string, j: int)
    requires CodesApart(sheet) && 0 <= j < |sheet|
    ensures FirstNamed(Explicit(sheet, slug), Idents(sheet[j].person)) ==
            if Filled(sheet[j], slug) then Some(Cell(sheet[j], slug)) else None
  {
    var people, idents := Explicit(sheet, slug), Idents(sheet[j].person);
    assert idents[0] == Lower(sheet[j].person.code);
    hide Explicit, Idents, Lower, Filled, Cell;
    forall k | 0 <= k < |idents|
      ensures NamedRole(people, idents[k]) ==
              if Lower(sheet[j].person.code) == idents[k] && Filled(sheet[j], slug)
              then Some(Cell(sheet[j], slug))
              else None
    {
      OnlyNamed(sheet, slug, idents[k], j);
    }
  }

  lemma SheetSource(sheet: seq<SheetUser>, defaults: Defaults, col: ServiceCol, j: int)
    requires CodesApart(sheet) && 0 <= j < |sheet|
    ensures var (role, origin) := SourceFor(SheetAssign(sheet, defaults, col), sheet[j].person);
            if Filled(sheet[j], col.slug) then role == Some(Cell(sheet[j], col.slug)) && origin == FromPeople
            else role == Fallback(defaults, col, sheet[j].person) && origin != FromPeople
  {
    hide Explicit, DepartmentRules, Filled, Cell, Idents, CodesApart;
    CellNames(sheet, col.slug, j);
    DepartmentRulesFirst(defaults, col.slug, sheet[j].person);
  }

  // Access of one person once the assignment is done, before the `none` cells.
  lemma SheetDecision(a: Access, sheet: seq<SheetUser>, defaults: Defaults, col: ServiceCol, skip: set<string>,
      j: int, r: Access)
    requires CodesApart(sheet) && DistinctPeople(sheet) && 0 <= j < |sheet|
    requires Settled(a, r, SheetAssign(sheet, defaults, col), SheetScope(sheet, col, skip), sheet[j].person)
    ensures var x := sheet[j];
            GrantOf(r, x.person.user)
            == if Unticked(x, col.slug, skip) || Cell(x, col.slug) == NO_ACCESS
               then GrantOf(a, x.person.user)
               else Precedence(a, x, defaults, col)
    ensures var u := sheet[j].person.user;
            r.cutoffs[u] == a.cutoffs[u] + (if u in a.grants && GrantOf(r, u) != Some(a.grants[u]) then 1 else 0)
  {
    var x := sheet[j];
    SheetSource(sheet, defaults, col, j);
    assert x.person.user in Users(sheet);
    assert x.person.user in SaidNone(sheet, col.slug) <==> Cell(x, col.slug) == NO_ACCESS by {
      assert forall i | 0 <= i < |sheet| && sheet[i].person.user == x.person.user :: i == j;
    }
    hide SheetAssign, SourceFor, Fallback, CodesApart, DistinctPeople, Users, SaidNone, Lower;
  }

  // The sheet's promise to one person on it: unless unticked, the precedence rule; and one revocation
  // row exactly when a role they held changed or went.
  ghost predicate Kept(a: Access, r: Access, x: SheetUser, defaults: Defaults, col: ServiceCol, skip: set<string>) {
    var u := x.person.user;
    && GrantOf(r, u) == (if Unticked(x, col.slug, skip) then GrantOf(a, u) else Precedence(a, x, defaults, col))
    && r.cutoffs[u] == a.cutoffs[u] + (if u in a.grants && GrantOf(r, u) != Some(a.grants[u]) then 1 else 0)
  }

  lemma DropPerson(r: Access, sheet: seq<SheetUser>, slug: string, skip: set<string>, j: int)
    requires DistinctPeople(sheet) && 0 <= j < |sheet|
    ensures var dropped := Dropped(r, sheet, slug, skip);
            var x := sheet[j];
            x.person.user in dropped <==>
              && Cell(x, slug) == NO_ACCESS && x.person.user in r.grants
              && !Unticked(x, slug, skip)
  {
    assert forall i | 0 <= i < |sheet| && sheet[i].person.user == sheet[j].person.user :: i == j;
    hide Cell, Unticked, DistinctPeople;
  }

  lemma DropEffect(r: Access, dropped: set<UserId>, u: UserId)
    ensures u !in dropped ==> SameFor(r, Drop(r, dropped), u)
    ensures u in dropped ==> GrantOf(Drop(r, dropped), u).None? && Drop(r, dropped).cutoffs[u] == r.cutoffs[u] + 1
  {}

  lemma SheetPerson(a: Access, sheet: seq<SheetUser>, defaults: Defaults, col: ServiceCol, skip: set<string>,
      roster: seq<Person>, j: int)
    requires DistinctUsers(roster) && DistinctPeople(sheet) && OnDirectory(sheet, roster) && CodesApart(sheet)
    requires 0 <= j < |sheet|
    ensures Kept(a, ColumnApplied(a, sheet, defaults, col, skip, roster), sheet[j], defaults, col, skip)
  {
    hide AssignAll, SheetAssign, SheetScope, Settled, Unticked, Dropped, Drop, CodesApart, DistinctPeople,
      DistinctUsers, Fallback;
    var assign, o := SheetAssign(sheet, defaults, col), SheetScope(sheet, col, skip);
    assert sheet[j].person in roster;
    var k :| 0 <= k < |roster| && roster[k] == sheet[j].person;
    AssignAllPointwise(Import(a, EMPTY_PLAN), assign, o, roster);
    var r := Assigned(Import(a, EMPTY_PLAN), assign, o, roster).access;
    assert Settled(a, r, assign, o, roster[k]);
    SheetDecision(a, sheet, defaults, col, skip, j, r);
    DropPerson(r, sheet, col.slug, skip, j);
    DropEffect(r, Dropped(r, sheet, col.slug, skip), sheet[j].person.user);
  }

  // Someone the sheet does not list.
  lemma OffSheet(a: Access, sheet: seq<SheetUser>, defaults: Defaults, col: ServiceCol, skip: set<string>,
      roster: seq<Person>, u: UserId)
    requires DistinctUsers(roster) && u !in Users(sheet)
    ensures SameFor(a, ColumnApplied(a, sheet, defaults, col, skip, roster), u)
  {
    var assign, o := SheetAssign(sheet, defaults, col), SheetScope(sheet, col, skip);
    var r := Assigned(Import(a, EMPTY_PLAN), assign, o, roster).access;
    assert forall i | 0 <= i < |sheet| :: sheet[i].person.user in Users(sheet);
    assert u !in Dropped(r, sheet, col.slug, skip);
    assert o.only.Some? && u !in o.only.value;
    hide AssignAll, SheetAssign, SheetScope, Unticked, Dropped, Drop, DistinctUsers, SourceFor, SaidNone, Users;
    AssignAllPointwise(Import(a, EMPTY_PLAN), assign, o, roster);
    if k :| 0 <= k < |roster| && roster[k].user == u {
      assert Settled(a, r, assign, o, roster[k]);
    } else {
      assert SameFor(a, r, u);
    }
    DropEffect(r, Dropped(r, sheet, col.slug, skip), u);
  }

  // Everyone on the sheet is served as it says; everyone else, and every unticked cell, is untouched.
  ghost predicate Followed(a: Access, r: Access, sheet: seq<SheetUser>, defaults: Defaults, col: ServiceCol,
      skip: set<string>)
  {
    && (forall j | 0 <= j < |sheet| :: Kept(a, r, sheet[j], defaults, col, skip))
    && (forall u | u !in Users(sheet) :: SameFor(a, r, u))
  }

  lemma SheetFollowsPrecedence(a: Access, sheet: seq<SheetUser>, defaults: Defaults, col: ServiceCol,
      skip: set<string>, roster: seq<Person>)
    requires DistinctUsers(roster) && DistinctPeople(sheet) && OnDirectory(sheet, roster) && CodesApart(sheet)
    ensures Followed(a, ColumnApplied(a, sheet, defaults, col, skip, roster), sheet, defaults, col, skip)
  {
    hide ColumnApplied, Kept, CodesApart, DistinctPeople, DistinctUsers, OnDirectory, Users, SameFor;
    forall j | 0 <= j < |sheet| { SheetPerson(a, sheet, defaults, col, skip, roster, j); }
    forall u | u !in Users(sheet) { OffSheet(a, sheet, defaults, col, skip, roster, u); }
  }

  // ---------------------------------------------------------------- all the columns

  // The access of every service, by slug.
  type Services = map<string, Access>

  function SheetApplied(all: Services, sheet: seq<SheetUser>, defaults: Defaults, cols: seq<ServiceCol>,
      skip: set<string>, roster: seq<Person>): (r: Services)
    ensures r.Keys == all.Keys
  {
    if cols == [] then all
    else
      var before := SheetApplied(all, sheet, defaults, cols[..|cols| - 1], skip, roster);
      var col := cols[|cols| - 1];
      if col.slug !in before then before
          else before[col.slug := ColumnApplied(before[col.slug], sheet, defaults, col, skip, roster)]
  }

  ghost predicate OneEach(dbs: map<string, ServiceAccess>) {
    forall s, t | s in dbs && t in dbs && s != t :: dbs[s] != dbs[t]
  }

  ghost function Views(dbs: map<string, ServiceAccess>): Services
    reads dbs.Values
  {
    map s | s in dbs :: dbs[s].View().access
  }

  method ApplyGrants(dbs: map<string, ServiceAccess>, sheet: seq<SheetUser>, defaults: Defaults,
      cols: seq<ServiceCol>, skip: set<string>, roster: seq<Person>)
    requires DistinctPeople(sheet) && OneEach(dbs)
    modifies dbs.Values
    ensures Views(dbs) == SheetApplied(old(Views(dbs)), sheet, defaults, cols, skip, roster)
  {
    hide ColumnApplied, DistinctPeople;
    for i := 0 to |cols|
      invariant Views(dbs) == SheetApplied(old(Views(dbs)), sheet, defaults, cols[..i], skip, roster)
    {
      var col := cols[i];
      assert cols[..i + 1][..i] == cols[..i];
      if col.slug !in dbs {
        continue;
      }
      var dropped := ApplyColumn(dbs[col.slug], sheet, defaults, col, skip, roster);
    }
    assert cols[..|cols|] == cols;
  }

  ghost predicate DistinctSlugs(cols: seq<ServiceCol>) {
    forall i, j | 0 <= i < j < |cols| :: cols[i].slug != cols[j].slug
  }

  ghost predicate HasColumn(cols: seq<ServiceCol>, slug: string) {
    exists k :: 0 <= k < |cols| && cols[k].slug == slug
  }

  lemma {:induction false} NoColumnNoChange(all: Services, sheet: seq<SheetUser>, defaults: Defaults,
      cols: seq<ServiceCol>, skip: set<string>, roster: seq<Person>, slug: string)
    requires slug in all && !HasColumn(cols, slug)
    ensures SheetApplied(all, sheet, defaults, cols, skip, roster)[slug] == all[slug]
  {
    hide ColumnApplied;
    if cols != [] {
      NoColumnNoChange(all, sheet, defaults, cols[..|cols| - 1], skip, roster, slug);
    }
  }

  lemma {:induction false} ColumnAlone(all: Services, sheet: seq<SheetUser>, defaults: Defaults,
      cols: seq<ServiceCol>, skip: set<string>, roster: seq<Person>, k: int)
    requires DistinctSlugs(cols) && 0 <= k < |cols| && cols[k].slug in all
    ensures SheetApplied(all, sheet, defaults, cols, skip, roster)[cols[k].slug]
        == ColumnApplied(all[cols[k].slug], sheet, defaults, cols[k], skip, roster)
  {
    hide ColumnApplied;
    var n := |cols| - 1;
    if k == n {
      NoColumnNoChange(all, sheet, defaults, cols[..n], skip, roster, cols[k].slug);
    } else {
      assert cols[..n][k] == cols[k];
      ColumnAlone(all, sheet, defaults, cols[..n], skip, roster, k);
    }
  }

  // The whole pass: in the service of every column the sheet is followed as SheetFollowsPrecedence
  // says, and no other service is touched.
  lemma EveryColumnFollows(all: Services, sheet: seq<SheetUser>, defaults: Defaults, cols: seq<ServiceCol>,
      skip: set<string>, roster: seq<Person>)
    requires DistinctUsers(roster) && DistinctPeople(sheet) && OnDirectory(sheet, roster) && CodesApart(sheet)
        && DistinctSlugs(cols)
    ensures var r := SheetApplied(all, sheet, defaults, cols, skip, roster);
            && (forall k | 0 <= k < |cols| && cols[k].slug in all ::
              Followed(all[cols[k].slug], r[cols[k].slug], sheet, defaults, cols[k], skip))
            && (forall s | s in all && !HasColumn(cols, s) :: r[s] == all[s])
  {
    hide ColumnApplied, SheetApplied, Followed, CodesApart, DistinctPeople, DistinctUsers, OnDirectory, DistinctSlugs,
      HasColumn;
    var r := SheetApplied(all, sheet, defaults, cols, skip, roster);
    forall k | 0 <= k < |cols| && cols[k].slug in all
      ensures Followed(all[cols[k].slug], r[cols[k].slug], sheet, defaults, cols[k], skip)
    {
      ColumnAlone(all, sheet, defaults, cols, skip, roster, k);
      SheetFollowsPrecedence(all[cols[k].slug], sheet, defaults, cols[k], skip, roster);
    }
    forall s | s in all && !HasColumn(cols, s) { NoColumnNoChange(all, sheet, defaults, cols, skip, roster, s); }
  }
}
