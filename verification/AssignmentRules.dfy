/** Who gets which role, said of the file and the person, and what a run makes of it
    (backend/app/roles_io.py:264-363, 381-407). */
module AssignmentRules {
  import opened Options
  import opened Text
  import opened RoleAssignment
  import opened RoleFile
  import opened RoleImport
  import opened RoleImportProperties
  import opened RoleImportPlan

  // ---------------------------------------------------------------- rules

  datatype Condition = OnAdmin | OnApprover | OnApprovalLevel | OnBand | OnDepartment

  // The rule has this condition and the person does not meet it; somebody without a band or department
  // meets no list of them.
  predicate Misses(rule: Rule, p: Person, c: Condition) {
    match c
    case OnAdmin => rule.admin == Some(!p.admin)
    case OnApprover => rule.approver == Some(!p.approver)
    case OnApprovalLevel => rule.approvalLevel == Some(!p.approvalLevel)
    case OnBand => rule.band.Some? && !exists b :: b in rule.band.value && p.band == Some(b)
    case OnDepartment => rule.department.Some? && !exists d :: d in rule.department.value && p.department == Some(d)
  }

  lemma RuleMatchesIff(rule: Rule, p: Person)
    ensures RuleMatches(rule, p) <==> forall c :: !Misses(rule, p, c)
  {
    assert (forall c :: !Misses(rule, p, c)) ==>
        && !Misses(rule, p, OnAdmin) && !Misses(rule, p, OnApprover) && !Misses(rule, p, OnApprovalLevel)
        && !Misses(rule, p, OnBand) && !Misses(rule, p, OnDepartment);
  }

  // ---------------------------------------------------------------- where a person's role comes from

  // What `people` says of an identifier, ignoring case; a missing or empty one names nobody.
  function NamedBy(people: seq<(string, string)>, ident: Option<string>): Option<string> {
    if ident == None || ident == Some("") then None else NamedRole(people, Lower(ident.value))
  }

  function Ident(ident: Option<string>): seq<string> {
    if ident == None || ident == Some("") then [] else [Lower(ident.value)]
  }

  lemma FirstOfOne(people: seq<(string, string)>, ident: Option<string>)
    ensures FirstNamed(people, Ident(ident)) == NamedBy(people, ident)
  {
    hide NamedRole, Lower;
  }

  lemma {:induction false} FirstOfMore(people: seq<(string, string)>, a: seq<string>, b: seq<string>)
    ensures FirstNamed(people, a + b)
         == if FirstNamed(people, a).Some? then FirstNamed(people, a) else FirstNamed(people, b)
  {
    hide NamedRole;
    if a == [] {
      assert a + b == b;
    } else {
      assert (a + b)[1..] == a[1..] + b;
      FirstOfMore(people, a[1..], b);
    }
  }

  lemma NamedInOrder(people: seq<(string, string)>, p: Person)
    ensures var (code, login, work) := (NamedBy(people, Some(p.code)), NamedBy(people, p.loginEmail),
                                        NamedBy(people, p.workEmail));
            FirstNamed(people, Idents(p)) == if code.Some? then code else if login.Some? then login else work
  {
    var (c, l, w) := (Ident(Some(p.code)), Ident(p.loginEmail), Ident(p.workEmail));
    assert Idents(p) == c + l + w;
    hide FirstNamed, NamedBy, Ident, Idents;
    FirstOfMore(people, c + l, w);
    FirstOfMore(people, c, l);
    FirstOfOne(people, Some(p.code));
    FirstOfOne(people, p.loginEmail);
    FirstOfOne(people, p.workEmail);
  }

  // Code before login before work e-mail, all before any rule; the first rule somebody meets before the
  // default; and the default only if there is one.
  lemma SourcesInOrder(assign: Assign, p: Person)
    ensures var (role, origin) := SourceFor(assign, p);
            var code := NamedBy(assign.people, Some(p.code));
            var login := NamedBy(assign.people, p.loginEmail);
            var work := NamedBy(assign.people, p.workEmail);
            var named := code.Some? || login.Some? || work.Some?;
            var ruled := exists i :: 0 <= i < |assign.rules| && RuleMatches(assign.rules[i], p);
            var default := assign.default.Some? && assign.default.value != "";
            && (origin == FromPeople <==> named)
            && (origin == FromRule <==> !named && ruled)
            && (origin == FromDefault <==> !named && !ruled && default)
            && (origin == FromNothing <==> !named && !ruled && !default)
            && (named ==> role == if code.Some? then code else if login.Some? then login else work)
            && (origin == FromRule ==>
                  exists i :: && 0 <= i < |assign.rules| && RuleMatches(assign.rules[i], p)
                              && role == assign.rules[i].role
                              && forall j | 0 <= j < i :: !RuleMatches(assign.rules[j], p))
            && (origin == FromDefault ==> role == assign.default)
            && (origin == FromNothing ==> role == None)
  {
    hide NamedBy, RuleMatches, FirstNamed, Idents;
    NamedInOrder(assign.people, p);
  }

  // ---------------------------------------------------------------- what a run makes of it

  // Whoever is outside the run or named nothing is left alone; so is whoever is ticked off, named a role
  // that does not exist, or has a role already: that one is only replaced in mode "all" or, with the
  // sheet's override, by a name in `people`, and only by another one. Everybody else is given the role.
  lemma DecisionIff(a: Access, assign: Assign, o: Scope, p: Person)
    ensures var role := SourceFor(assign, p).0;
            var origin := SourceFor(assign, p).1;
            var d := Decide(a, assign, o, p);
            var asked := (o.only == None || p.user in o.only.value) && role.Some?;
            var ticked := Lower(p.code + ":" + o.slug) in o.skip;
            var there := asked && !ticked && role.value in a.roles;
            var overrides := o.mode == "all" || (o.peopleOverride && origin == FromPeople);
            && (d == Ignore <==> !asked)
            && (d == Skip <==> asked && ticked)
            && (d.Missing? <==> asked && !ticked && role.value !in a.roles)
            && (d.Give? <==> there && p.user !in a.grants)
            && (d.Switch? <==> there && p.user in a.grants && a.grants[p.user] != role.value && overrides)
            && (d == Keep <==> there && p.user in a.grants && (a.grants[p.user] == role.value || !overrides))
            && (d.Missing? ==> d.role == role.value)
            && (d.Give? ==> d == Give(role.value, origin))
            && (d.Switch? ==> d == Switch(a.grants[p.user], role.value, origin))
  {
    hide SourceFor, Lower;
  }

  // A run over everyone warns of exactly the names in `people` that are nobody's code, login or work
  // e-mail, ignoring case; a run over some warns of none.
  lemma UnmatchedIff(assign: Assign, o: Scope, roster: seq<Person>, name: string)
    ensures NobodyMatches(name) in Unmatched(assign, o, roster)
            <==> && o.only == None
                 && (exists i :: 0 <= i < |assign.people| && Lower(assign.people[i].0) == name)
                 && forall k | 0 <= k < |roster| ::
                      && name !in Ident(Some(roster[k].code)) && name !in Ident(roster[k].loginEmail)
                      && name !in Ident(roster[k].workEmail)
  {
    forall p: Person ensures Idents(p) == Ident(Some(p.code)) + Ident(p.loginEmail) + Ident(p.workEmail) {
    }
    hide Lower, Idents, Ident;
  }

  // Everybody who is left as they were although the run was about them.
  function LeftAlone(a: Access, assign: Assign, o: Scope, roster: seq<Person>): nat {
    if roster == [] then 0
    else LeftAlone(a, assign, o, roster[..|roster| - 1])
         + (if Decide(a, assign, o, roster[|roster| - 1]) in {Skip, Keep} then 1 else 0)
  }

  ghost predicate MissingFor(a: Access, assign: Assign, o: Scope, roster: seq<Person>, u: UserId, role: string) {
    exists i :: 0 <= i < |roster| && roster[i].user == u && Decide(a, assign, o, roster[i]) == Missing(role)
  }

  // The run counts exactly those, and warns of exactly the roles it should have given and did not find.
  lemma {:induction false} RunReports(s: Import, assign: Assign, o: Scope, roster: seq<Person>)
    requires DistinctUsers(roster)
    ensures var r := AssignAll(s, assign, o, roster).plan;
            && r.kept == s.plan.kept + LeftAlone(s.access, assign, o, roster)
            && forall w :: w in r.warnings <==>
                 || w in s.plan.warnings
                 || (w.NoSuchRole? && MissingFor(s.access, assign, o, roster, w.user, w.role))
  {
    hide Decide, Settled;
    if roster != [] {
      var n := |roster| - 1;
      var (front, p) := (roster[..n], roster[n]);
      assert forall i | 0 <= i < n :: front[i] == roster[i] && roster[i].user != p.user;
      RunReports(s, assign, o, front);
      AssignAllPointwise(s, assign, o, front);
      var mid := AssignAll(s, assign, o, front);
      DecideAlike(s.access, mid.access, assign, o, p);
      forall u, role
        ensures MissingFor(s.access, assign, o, roster, u, role) <==>
                  || MissingFor(s.access, assign, o, front, u, role)
                  || (u == p.user && Decide(s.access, assign, o, p) == Missing(role))
      {
        MissingOneMore(s.access, assign, o, roster, u, role);
      }
      hide MissingFor, AssignAll, DistinctUsers;
      assert AssignAll(s, assign, o, roster) == Carry(mid, p, Decide(mid.access, assign, o, p)) by {
        LastCarried(s, assign, o, roster);
      }
    }
  }

  lemma LastCarried(s: Import, assign: Assign, o: Scope, roster: seq<Person>)
    requires roster != []
    ensures var mid := AssignAll(s, assign, o, roster[..|roster| - 1]);
            AssignAll(s, assign, o, roster)
            == Carry(mid, roster[|roster| - 1], Decide(mid.access, assign, o, roster[|roster| - 1]))
  {
    hide Carry, Decide;
  }

  lemma MissingOneMore(a: Access, assign: Assign, o: Scope, roster: seq<Person>, u: UserId, role: string)
    requires roster != []
    ensures var p := roster[|roster| - 1];
            MissingFor(a, assign, o, roster, u, role) <==>
              || MissingFor(a, assign, o, roster[..|roster| - 1], u, role)
              || (u == p.user && Decide(a, assign, o, p) == Missing(role))
  {
    hide Decide;
    var front := roster[..|roster| - 1];
    assert forall i | 0 <= i < |front| :: front[i] == roster[i];
  }

  // Whoever had a replaced role goes to the first role of the file that says it replaces it.
  lemma SuccessorMeans(doc: Doc, k: string)
    ensures Superseded(doc, k) <==> exists i :: 0 <= i < |doc.roles| && k in doc.roles[i].supersedes
    ensures Superseded(doc, k) ==>
              exists i :: && 0 <= i < |doc.roles| && k in doc.roles[i].supersedes
                          && Successor(doc, k) == doc.roles[i].key
                          && forall j | 0 <= j < i :: k !in doc.roles[j].supersedes
  {
    forall i | 0 <= i < |doc.roles|
      ensures k in doc.roles[i].supersedes <==> exists y :: SupersededAre(doc, i, y, k)
    {
      if k in doc.roles[i].supersedes {
        var y :| 0 <= y < |doc.roles[i].supersedes| && doc.roles[i].supersedes[y] == k;
        assert SupersededAre(doc, i, y, k);
      }
    }
    if Superseded(doc, k) {
      var i := FirstReplacer(doc, k, 0);
      assert forall j, y | 0 <= j < i :: !SupersededAre(doc, j, y, k);
    }
  }

  // Cleaning up warns of exactly the roles it would remove if nobody had them, and only when asked to.
  lemma CleanupReports(s: Import, existing: set<string>, doc: Doc, w: Warning)
    ensures w in Pruned(s, existing, doc).plan.warnings
            <==> || w in s.plan.warnings
                 || (&& doc.removeUnlisted && w.KeptRole? && w.role in existing && w.role !in Keys(doc)
                     && !Superseded(doc, w.role) && exists u :: u in s.access.grants && s.access.grants[u] == w.role)
  {
    hide Keys, Superseded;
  }

  // The mode asked for wins over the file's, and without either only those who have no role get one.
  lemma ModeMeans(override: Option<string>, a: Assign)
    ensures override.Some? && override.value != "" ==> ModeOf(override, a) == override.value
    ensures override in {None, Some("")} && a.mode.Some? ==> ModeOf(override, a) == a.mode.value
    ensures override in {None, Some("")} && a.mode.None? ==> ModeOf(override, a) == "missing"
    ensures forall slug: string ::
              FileScope(slug, override, a) == Scope(slug, ModeOf(override, a), false, None, {})
  {}

  lemma ListedRank(a: Access, doc: Doc, i: int)
    requires Coherent(doc) && 0 <= i < |doc.roles|
    ensures Rank(Unassigned(a, doc).access, doc.roles[i].key) == (i + 1) * 10
  {
    hide Unassigned, Carried, Survives, Keys, DeclaredRole;
    UnassignedRole(a, doc, doc.roles[i].key);
    IndexOfKey(doc, i);
  }

  // The plan calls a change between two roles of the file a promotion exactly when the new one stands
  // further down the list.
  lemma DirectionIsListOrder(a: Access, doc: Doc, slug: string, override: Option<string>, roster: seq<Person>,
      c: Change, i: int, j: int)
    requires Coherent(doc) && DistinctUsers(roster) && c in Applied(a, doc, slug, override, roster).plan.changed
    requires 0 <= i < |doc.roles| && 0 <= j < |doc.roles|
    requires c.was == doc.roles[i].key && c.becomes == doc.roles[j].key
    ensures c.direction == if j > i then Up else if j < i then Down else Sideways
  {
    hide Coherent, DistinctUsers, Unassigned, Decide, AssignAll, Unmatched, Rank;
    UnassignedPlan(a, doc);
    ListedRank(a, doc, i);
    ListedRank(a, doc, j);
    if doc.assign.Some? {
      AssignAllPlan(Unassigned(a, doc), doc.assign.value, FileScope(slug, override, doc.assign.value), roster);
    }
  }

  // Letters that differ at most in case.
  predicate SameLetter(a: char, b: char) {
    || a == b
    || ('A' <= a <= 'Z' && b as int == a as int + 32)
    || ('A' <= b <= 'Z' && a as int == b as int + 32)
  }

  lemma LowerIgnoresCase(s: string, t: string)
    ensures Lower(s) == Lower(t) <==> |s| == |t| && forall i | 0 <= i < |s| :: SameLetter(s[i], t[i])
  {
    if Lower(s) == Lower(t) {
      forall i | 0 <= i < |s| ensures SameLetter(s[i], t[i]) {
        assert Lower(s)[i] == Lower(t)[i];
      }
    }
  }
}
