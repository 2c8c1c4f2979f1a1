/** Role files: the document, its validation and its normal form (backend/app/roles_io.py:59-235). */
module RoleFile {
  import opened Options
  import opened Text
  import opened RoleAssignment

  const FORMAT := "mmos-roles/1"

  datatype RoleSpec = RoleSpec(key: string, name: string, description: Option<string>, isDefault: bool,
                               permissions: seq<string>, supersedes: seq<string>)

  datatype Doc = Doc(format: Option<string>, service: Option<string>, permissions: map<string, string>,
                     roles: seq<RoleSpec>, removeUnlisted: bool, assign: Option<Assign>)

  // Indices count into the list the problem is about.
  datatype Problem =
    | WrongFormat | NoService | OtherService
    | BadPermissionKey(key: string)
    | NoRoles | BadRoleKey(i: nat) | ListedTwice(i: nat) | NoName(i: nat) | UnknownPermissions(i: nat)
    | NoPermissions(i: nat)
    | TwoDefaults | ReplacesListed(i: nat)
    | BadMode | BadRule(i: nat) | UnknownRuleKeys(i: nat) | UnknownRoleFor(i: nat) | UnknownDefault

  // ---------------------------------------------------------------- what is wrong with a file

  ghost predicate HeaderComplaint(doc: Doc, slug: Option<string>, p: Problem) {
    match p
    case WrongFormat => doc.format.Some? && doc.format.value != FORMAT
    case NoService => doc.service.None? || doc.service.value == ""
    case OtherService => && doc.service.Some? && doc.service.value != "" && slug.Some? && slug.value != ""
                         && doc.service.value != slug.value
    case BadPermissionKey(k) => k in doc.permissions && !PermissionKeyOk(k)
    case NoRoles => doc.roles == []
    case _ => false
  }

  // Role `i` is looked at beyond its key.
  predicate Keyed(doc: Doc, i: int) {
    0 <= i < |doc.roles| && RoleKeyOk(doc.roles[i].key)
  }

  predicate HasUnknown(doc: Doc, r: RoleSpec) {
    exists x :: x in r.permissions && x !in doc.permissions
  }

  ghost predicate RoleComplaint(doc: Doc, p: Problem) {
    match p
    case BadRoleKey(i) => i < |doc.roles| && !RoleKeyOk(doc.roles[i].key)
    case ListedTwice(i) => Keyed(doc, i) && exists j :: 0 <= j < i && doc.roles[j].key == doc.roles[i].key
    case NoName(i) => Keyed(doc, i) && Strip(doc.roles[i].name) == ""
    case UnknownPermissions(i) => Keyed(doc, i) && HasUnknown(doc, doc.roles[i])
    case NoPermissions(i) =>
      Keyed(doc, i) && !HasUnknown(doc, doc.roles[i]) && doc.permissions != map[] && doc.roles[i].permissions == []
    case _ => false
  }

  predicate Default(doc: Doc, i: int) {
    Keyed(doc, i) && doc.roles[i].isDefault
  }

  ghost predicate DefaultComplaint(doc: Doc, p: Problem) {
    p.TwoDefaults? && exists i, j :: i < j && Default(doc, i) && Default(doc, j)
  }

  function Seen(doc: Doc): set<string> {
    set i | 0 <= i < |doc.roles| && RoleKeyOk(doc.roles[i].key) :: doc.roles[i].key
  }

  ghost predicate ClashComplaint(doc: Doc, p: Problem) {
    match p
    case ReplacesListed(i) => Keyed(doc, i) && exists x :: x in doc.roles[i].supersedes && x in Seen(doc)
    case _ => false
  }

  predicate RuleNamed(doc: Doc, rule: Rule) {
    rule.role.Some? && rule.role.value in Seen(doc)
  }

  ghost predicate AssignComplaint(doc: Doc, a: Assign, p: Problem) {
    match p
    case BadMode => a.mode.Some? && a.mode.value != "missing" && a.mode.value != "all"
    case BadRule(i) => i < |a.rules| && !RuleNamed(doc, a.rules[i])
    case UnknownRuleKeys(i) => i < |a.rules| && RuleNamed(doc, a.rules[i]) && a.rules[i].unknownKeys != {}
    case UnknownRoleFor(i) => i < |a.people| && a.people[i].1 !in Seen(doc)
    case UnknownDefault => a.default.Some? && a.default.value !in Seen(doc)
    case _ => false
  }

  ghost predicate Complaint(doc: Doc, slug: Option<string>, p: Problem) {
    || HeaderComplaint(doc, slug, p) || RoleComplaint(doc, p) || DefaultComplaint(doc, p) || ClashComplaint(doc, p)
    || (doc.assign.Some? && AssignComplaint(doc, doc.assign.value, p))
  }

  ghost predicate Acceptable(doc: Doc, slug: Option<string>) {
    forall p :: !Complaint(doc, slug, p)
  }

  function NormalRole(r: RoleSpec): RoleSpec {
    RoleSpec(r.key, Strip(r.name), if r.description == Some("") then None else r.description, r.isDefault,
             FirstOccurrences(r.permissions), r.supersedes)
  }

  function Normal(doc: Doc): Doc {
    doc.(format := Some(FORMAT), roles := seq(|doc.roles|, i requires 0 <= i < |doc.roles| => NormalRole(doc.roles[i])))
  }

  // ---------------------------------------------------------------- validate

  method CheckHeader(doc: Doc, slug: Option<string>) returns (found: set<Problem>)
    ensures forall p :: p in found <==> HeaderComplaint(doc, slug, p)
  {
    found := {};
    if doc.format.Some? && doc.format.value != FORMAT {
      found := found + {WrongFormat};
    }
    if doc.service.None? || doc.service.value == "" {
      found := found + {NoService};
    } else if slug.Some? && slug.value != "" && doc.service.value != slug.value {
      found := found + {OtherService};
    }
    if doc.roles == [] {
      found := found + {NoRoles};
    }
    ghost var before := found;
    var todo := doc.permissions.Keys;
    while todo != {}
      invariant todo <= doc.permissions.Keys
      invariant forall p :: p in found <==>
          p in before || (p.BadPermissionKey? && p.key in doc.permissions.Keys - todo && !PermissionKeyOk(p.key))
      decreases todo
    {
      var k :| k in todo;
      if !PermissionKeyOk(k) {
        found := found + {BadPermissionKey(k)};
      }
      todo := todo - {k};
    }
  }

  method CheckRole(doc: Doc, i: nat, seen: set<string>) returns (found: set<Problem>)
    requires Keyed(doc, i)
    requires forall k :: k in seen <==> exists j :: 0 <= j < i && Keyed(doc, j) && doc.roles[j].key == k
    ensures forall p :: p in found <==> RoleComplaint(doc, p) && p.i == i
  {
    var r := doc.roles[i];
    found := {};
    if r.key in seen {
      found := found + {ListedTwice(i)};
    }
    if Strip(r.name) == "" {
      found := found + {NoName(i)};
    }
    if HasUnknown(doc, r) {
      found := found + {UnknownPermissions(i)};
    } else if doc.permissions != map[] && r.permissions == [] {
      found := found + {NoPermissions(i)};
    }
    assert r.key in seen <==> exists j :: 0 <= j < i && doc.roles[j].key == r.key by {
      if j :| 0 <= j < i && doc.roles[j].key == r.key {
        assert Keyed(doc, j);
      }
    }
  }

  method CheckRoles(doc: Doc) returns (found: set<Problem>, roles: seq<RoleSpec>, seen: set<string>)
    ensures forall p :: p in found <==> RoleComplaint(doc, p)
    ensures seen == Seen(doc)
    ensures found == {} ==> roles == Normal(doc).roles
  {
    hide NormalRole, RoleKeyOk, HasUnknown;
    found, roles, seen := {}, [], {};
    for i := 0 to |doc.roles|
      invariant forall p :: p in found <==> RoleComplaint(doc, p) && p.i < i
      invariant forall k :: k in seen <==> exists j :: 0 <= j < i && Keyed(doc, j) && doc.roles[j].key == k
      invariant (forall j | 0 <= j < i :: Keyed(doc, j)) ==> roles == Normal(doc).roles[..i]
    {
      var r := doc.roles[i];
      if !RoleKeyOk(r.key) {
        assert forall p | RoleComplaint(doc, p) && p.i == i :: p == BadRoleKey(i);
        assert !Keyed(doc, i);
        found := found + {BadRoleKey(i)};
      } else {
        var here := CheckRole(doc, i, seen);
        found := found + here;
        seen := seen + {r.key};
        roles := roles + [NormalRole(r)];
        assert Normal(doc).roles[..i + 1] == Normal(doc).roles[..i] + [NormalRole(r)];
      }
    }
    if found == {} {
      forall j | 0 <= j < |doc.roles| ensures Keyed(doc, j) {
        assert BadRoleKey(j) !in found;
      }
    }
  }

  method CountDefaults(doc: Doc) returns (count: nat)
    ensures count > 1 <==> DefaultComplaint(doc, TwoDefaults)
  {
    count := 0;
    for i := 0 to |doc.roles|
      invariant count == 0 <==> forall j | 0 <= j < i :: !Default(doc, j)
      invariant count > 1 <==> exists j, k :: j < k < i && Default(doc, j) && Default(doc, k)
    {
      if RoleKeyOk(doc.roles[i].key) && doc.roles[i].isDefault {
        assert Default(doc, i);
        count := count + 1;
      }
    }
  }

  method CheckClashes(doc: Doc, seen: set<string>) returns (found: set<Problem>)
    requires seen == Seen(doc)
    ensures forall p :: p in found <==> ClashComplaint(doc, p)
  {
    found := {};
    for i := 0 to |doc.roles|
      invariant forall p :: p in found <==> ClashComplaint(doc, p) && p.i < i
    {
      var clash := set x | x in doc.roles[i].supersedes && x in seen;
      assert forall x | x in doc.roles[i].supersedes && x in seen :: x in clash;
      if RoleKeyOk(doc.roles[i].key) && clash != {} {
        found := found + {ReplacesListed(i)};
      }
    }
  }

  method CheckRules(doc: Doc, a: Assign, seen: set<string>) returns (found: set<Problem>)
    requires seen == Seen(doc)
    ensures forall p :: p in found <==> AssignComplaint(doc, a, p) && (p.BadRule? || p.UnknownRuleKeys?)
  {
    found := {};
    for i := 0 to |a.rules|
      invariant forall p :: p in found <==> AssignComplaint(doc, a, p) && (p.BadRule? || p.UnknownRuleKeys?) && p.i < i
    {
      if a.rules[i].role.None? || a.rules[i].role.value !in seen {
        found := found + {BadRule(i)};
      } else if a.rules[i].unknownKeys != {} {
        found := found + {UnknownRuleKeys(i)};
      }
    }
  }

  method CheckAssign(doc: Doc, a: Assign, seen: set<string>) returns (found: set<Problem>)
    requires seen == Seen(doc)
    ensures forall p :: p in found <==> AssignComplaint(doc, a, p)
  {
    found := CheckRules(doc, a, seen);
    if a.mode.Some? && a.mode.value != "missing" && a.mode.value != "all" {
      found := found + {BadMode};
    }
    if a.default.Some? && a.default.value !in seen {
      found := found + {UnknownDefault};
    }
    ghost var before := found;
    for i := 0 to |a.people|
      invariant forall p :: p in found <==> p in before || (p.UnknownRoleFor? && AssignComplaint(doc, a, p) && p.i < i)
    {
      if a.people[i].1 !in seen {
        found := found + {UnknownRoleFor(i)};
      }
    }
  }

  // Every problem of the file at once, or its normal form.
  method Validate(doc: Doc, slug: Option<string>) returns (r: Result<Doc, set<Problem>>)
    ensures r.Ok? <==> Acceptable(doc, slug)
    ensures r.Ok? ==> r.value == Normal(doc)
    ensures r.Err? ==> r.error != {} && forall p :: p in r.error <==> Complaint(doc, slug, p)
  {
    hide HeaderComplaint, RoleComplaint, ClashComplaint, AssignComplaint, Seen, NormalRole;
    var header := CheckHeader(doc, slug);
    var byRole, roles, seen := CheckRoles(doc);
    var defaults := CountDefaults(doc);
    var tooMany := if defaults > 1 then {TwoDefaults} else {};
    var clashes := CheckClashes(doc, seen);
    var assign: set<Problem> := {};
    if doc.assign.Some? {
      assign := CheckAssign(doc, doc.assign.value, seen);
    }
    var found := header + byRole + tooMany + clashes + assign;
    assert forall p :: p in found <==> Complaint(doc, slug, p);
    if found != {} {
      assert exists p :: p in found;
      r := Err(found);
    } else {
      r := Ok(doc.(format := Some(FORMAT), roles := roles));
    }
  }

  // ---------------------------------------------------------------- normal forms stay valid

  lemma NormalRoleTwice(r: RoleSpec)
    ensures NormalRole(NormalRole(r)) == NormalRole(r)
  {
    StripTwice(r.name);
    FirstOccurrencesDistinct(r.permissions);
    FirstOccurrencesDistinct(FirstOccurrences(r.permissions));
  }

  lemma NormalSeen(doc: Doc)
    ensures Seen(Normal(doc)) == Seen(doc)
    ensures forall i :: Keyed(Normal(doc), i) <==> Keyed(doc, i)
  {
    hide RoleKeyOk;
    var n := Normal(doc);
    assert forall i | 0 <= i < |doc.roles| :: n.roles[i].key == doc.roles[i].key;
    forall k ensures k in Seen(n) <==> k in Seen(doc) {
      if k in Seen(doc) {
        var i :| 0 <= i < |doc.roles| && RoleKeyOk(doc.roles[i].key) && doc.roles[i].key == k;
        assert n.roles[i].key == k;
      }
    }
  }

  // Validation is idempotent: what it returns is accepted again, and returned as it is.
  lemma NormalIsAcceptable(doc: Doc, slug: Option<string>)
    requires Acceptable(doc, slug)
    ensures Acceptable(Normal(doc), slug)
    ensures Normal(Normal(doc)) == Normal(doc)
  {
    hide RoleKeyOk, PermissionKeyOk, Strip, FirstOccurrences, NormalRole;
    var n := Normal(doc);
    NormalSeen(doc);
    forall i | 0 <= i < |doc.roles| ensures NormalRole(n.roles[i]) == n.roles[i] {
      NormalRoleTwice(doc.roles[i]);
    }
    forall p ensures !Complaint(n, slug, p) {
      assert !Complaint(doc, slug, p);
      NormalKeepsRoles(doc, p);
    }
  }

  lemma NormalKeepsRoles(doc: Doc, p: Problem)
    ensures RoleComplaint(Normal(doc), p) <==> RoleComplaint(doc, p)
    ensures DefaultComplaint(Normal(doc), p) <==> DefaultComplaint(doc, p)
    ensures ClashComplaint(Normal(doc), p) <==> ClashComplaint(doc, p)
  {
    hide RoleKeyOk, Strip, FirstOccurrences, Seen;
    var n := Normal(doc);
    NormalSeen(doc);
    forall i | 0 <= i < |doc.roles|
      ensures HasUnknown(n, n.roles[i]) <==> HasUnknown(doc, doc.roles[i])
      ensures n.roles[i].permissions == [] <==> doc.roles[i].permissions == []
      ensures Strip(n.roles[i].name) == Strip(doc.roles[i].name)
    {
      var before, after := doc.roles[i].permissions, n.roles[i].permissions;
      assert forall x :: x in after <==> x in before;
      StripTwice(doc.roles[i].name);
      if before != [] {
        assert before[0] in after;
      }
      if after != [] {
        assert after[0] in before;
      }
    }
    assert forall i :: Default(n, i) <==> Default(doc, i);
    match p
    case ListedTwice(i) =>
      assert forall j | 0 <= j < |doc.roles| :: n.roles[j].key == doc.roles[j].key;
    case _ =>
  }
}
