/** What a valid role file is, said at once instead of complaint by complaint, and what its normal form
    keeps (backend/app/roles_io.py:59-235). */
module RoleFileMeaning {
  import opened Options
  import opened Text
  import opened RoleAssignment
  import opened RoleFile

  // ---------------------------------------------------------------- keys and names

  // A lower-case letter, then such letters, digits and these signs, `limit` characters at most; one
  // newline may follow.
  ghost predicate KeyLike(s: string, limit: nat, signs: set<char>) {
    exists body :: && (s == body || s == body + "\n") && KeyBody(body, limit, signs)
  }

  predicate KeyBody(body: string, limit: nat, signs: set<char>) {
    && 1 <= |body| <= limit && 'a' <= body[0] <= 'z'
    && forall i | 1 <= i < |body| :: 'a' <= body[i] <= 'z' || '0' <= body[i] <= '9' || body[i] in signs
  }

  lemma KeyLikeMeans(s: string, limit: nat, signs: set<char>)
    requires '\n' !in signs
    ensures KeyLike(s, limit, signs) <==> KeyBody(BeforeFinalNewline(s), limit, signs)
  {
    var body := BeforeFinalNewline(s);
    assert s == body || s == body + "\n";
    if b :| (s == b || s == b + "\n") && KeyBody(b, limit, signs) {
      assert b[|b| - 1] != '\n';
      assert body == b;
    }
  }

  lemma KeysMean(s: string)
    ensures RoleKeyOk(s) <==> KeyLike(s, 32, {'_'})
    ensures PermissionKeyOk(s) <==> KeyLike(s, 64, {'_', '.', ':', '-'})
  {
    KeyLikeMeans(s, 32, {'_'});
    KeyLikeMeans(s, 64, {'_', '.', ':', '-'});
    hide BeforeFinalNewline, KeyLike;
  }

  predicate AllBlank(s: string) {
    forall c | c in s :: Blank(c)
  }

  lemma BlankJoins(a: string, b: string)
    ensures AllBlank(a + b) <==> AllBlank(a) && AllBlank(b)
  {
    hide Blank;
    assert forall c :: c in a + b <==> c in a || c in b;
  }

  lemma {:induction false} LeftTrimmed(s: string) returns (before: string)
    ensures s == before + TrimLeft(s) && AllBlank(before)
    decreases |s|
  {
    hide Blank;
    before := "";
    if s != "" && Blank(s[0]) {
      var b := LeftTrimmed(s[1..]);
      before := [s[0]] + b;
      BlankJoins([s[0]], b);
      hide AllBlank;
      assert before + TrimLeft(s) == [s[0]] + (b + TrimLeft(s)) == [s[0]] + s[1..] == s;
    }
  }

  lemma {:induction false} RightTrimmed(s: string) returns (after: string)
    ensures s == TrimRight(s) + after && AllBlank(after)
    decreases |s|
  {
    hide Blank;
    after := "";
    if s != "" && Blank(s[|s| - 1]) {
      var (front, last) := (s[..|s| - 1], s[|s| - 1]);
      var a := RightTrimmed(front);
      after := a + [last];
      BlankJoins(a, [last]);
      hide AllBlank;
      assert TrimRight(s) + after == (TrimRight(s) + a) + [last] == front + [last] == s;
    }
  }

  // Stripping takes blanks, off the ends, and all of them.
  lemma StripMeans(s: string) returns (before: string, after: string)
    ensures s == before + Strip(s) + after && AllBlank(before) && AllBlank(after)
    ensures Strip(s) != "" ==> !Blank(Strip(s)[0]) && !Blank(Strip(s)[|Strip(s)| - 1])
    ensures Strip(s) == "" <==> AllBlank(s)
  {
    hide Blank;
    before := LeftTrimmed(s);
    after := RightTrimmed(TrimLeft(s));
    assert s == before + (Strip(s) + after);
    if Strip(s) != "" {
      assert Strip(s)[0] in s by { assert s[|before|] == Strip(s)[0]; }
    }
  }

  // ---------------------------------------------------------------- a valid file

  ghost predicate Lists(doc: Doc, key: string) {
    exists i :: 0 <= i < |doc.roles| && doc.roles[i].key == key
  }

  ghost predicate ValidHeader(doc: Doc, slug: Option<string>) {
    && (doc.format.Some? ==> doc.format.value == "mmos-roles/1")
    && doc.service.Some? && doc.service.value != ""
    && (slug.Some? && slug.value != "" ==> doc.service.value == slug.value)
    && (forall k | k in doc.permissions :: KeyLike(k, 64, {'_', '.', ':', '-'}))
    && doc.roles != []
  }

  ghost predicate ValidRole(doc: Doc, r: RoleSpec) {
    && KeyLike(r.key, 32, {'_'})
    && !AllBlank(r.name)
    && (forall x | x in r.permissions :: x in doc.permissions)
    && (doc.permissions != map[] ==> r.permissions != [])
    && (forall x | x in r.supersedes :: !Lists(doc, x))
  }

  ghost predicate ValidRoles(doc: Doc) {
    && (forall i | 0 <= i < |doc.roles| :: ValidRole(doc, doc.roles[i]))
    && (forall i, j | 0 <= i < j < |doc.roles| :: doc.roles[i].key != doc.roles[j].key)
  }

  ghost predicate OneDefault(doc: Doc) {
    forall i, j | 0 <= i < j < |doc.roles| :: !(doc.roles[i].isDefault && doc.roles[j].isDefault)
  }

  ghost predicate ValidAssign(doc: Doc, a: Assign) {
    && (a.mode.Some? ==> a.mode.value == "missing" || a.mode.value == "all")
    && (forall i | 0 <= i < |a.rules| ::
          a.rules[i].role.Some? && Lists(doc, a.rules[i].role.value) && a.rules[i].unknownKeys == {})
    && (forall i | 0 <= i < |a.people| :: Lists(doc, a.people[i].1))
    && (a.default.Some? ==> Lists(doc, a.default.value))
  }

  // The right format and service, well-formed permission keys, at least one role, every role valid,
  // none listed twice, at most one default, and an assignment that stays within them.
  ghost predicate ValidFile(doc: Doc, slug: Option<string>) {
    && ValidHeader(doc, slug)
    && ValidRoles(doc)
    && OneDefault(doc)
    && (doc.assign.Some? ==> ValidAssign(doc, doc.assign.value))
  }

  lemma SeenMeans(doc: Doc)
    requires forall i | 0 <= i < |doc.roles| :: RoleKeyOk(doc.roles[i].key)
    ensures forall x :: x in Seen(doc) <==> Lists(doc, x)
  {}

  lemma NamesMean(doc: Doc, i: int)
    requires 0 <= i < |doc.roles|
    ensures Strip(doc.roles[i].name) == "" <==> AllBlank(doc.roles[i].name)
    ensures RoleKeyOk(doc.roles[i].key) <==> KeyLike(doc.roles[i].key, 32, {'_'})
  {
    var b, a := StripMeans(doc.roles[i].name);
    KeysMean(doc.roles[i].key);
  }

  lemma HeaderMeans(doc: Doc, slug: Option<string>)
    ensures (forall p :: !HeaderComplaint(doc, slug, p))
            <==> ValidHeader(doc, slug)
  {
    forall k ensures PermissionKeyOk(k) <==> KeyLike(k, 64, {'_', '.', ':', '-'}) {
      KeysMean(k);
    }
    hide PermissionKeyOk, KeyLike;
    if forall p :: !HeaderComplaint(doc, slug, p) {
      assert !HeaderComplaint(doc, slug, WrongFormat) && !HeaderComplaint(doc, slug, NoService);
      assert !HeaderComplaint(doc, slug, OtherService) && !HeaderComplaint(doc, slug, NoRoles);
      forall k | k in doc.permissions ensures PermissionKeyOk(k) {
        assert !HeaderComplaint(doc, slug, BadPermissionKey(k));
      }
    }
  }

  // What the complaints about role `i` alone leave.
  ghost predicate RoleStands(doc: Doc, i: int)
    requires 0 <= i < |doc.roles|
  {
    && RoleKeyOk(doc.roles[i].key) && Strip(doc.roles[i].name) != ""
    && (forall x | x in doc.roles[i].permissions :: x in doc.permissions)
    && (doc.permissions != map[] ==> doc.roles[i].permissions != [])
    && (forall j | 0 <= j < i :: doc.roles[j].key != doc.roles[i].key)
  }

  ghost predicate AllStand(doc: Doc) {
    forall i | 0 <= i < |doc.roles| :: RoleStands(doc, i)
  }

  ghost predicate NobodyReplacesListed(doc: Doc) {
    forall i, x | 0 <= i < |doc.roles| && x in doc.roles[i].supersedes :: !Lists(doc, x)
  }

  lemma RoleMeans(doc: Doc, i: nat)
    requires i < |doc.roles|
    ensures && !RoleComplaint(doc, BadRoleKey(i)) && !RoleComplaint(doc, ListedTwice(i))
            && !RoleComplaint(doc, NoName(i)) && !RoleComplaint(doc, UnknownPermissions(i))
            && !RoleComplaint(doc, NoPermissions(i))
            <==> RoleStands(doc, i)
  {
    hide RoleKeyOk, Strip;
  }

  lemma RolesMean(doc: Doc)
    ensures (forall p :: !RoleComplaint(doc, p)) <==> AllStand(doc)
  {
    hide RoleKeyOk, Strip, RoleStands;
    forall i: nat | i < |doc.roles|
      ensures && !RoleComplaint(doc, BadRoleKey(i)) && !RoleComplaint(doc, ListedTwice(i))
              && !RoleComplaint(doc, NoName(i)) && !RoleComplaint(doc, UnknownPermissions(i))
              && !RoleComplaint(doc, NoPermissions(i))
              <==> RoleStands(doc, i)
    {
      RoleMeans(doc, i);
    }
    if AllStand(doc) {
      forall p ensures !RoleComplaint(doc, p) {
      }
    }
  }

  lemma RestMeans(doc: Doc)
    requires forall i | 0 <= i < |doc.roles| :: RoleKeyOk(doc.roles[i].key)
    ensures (forall p :: !DefaultComplaint(doc, p)) <==> OneDefault(doc)
    ensures (forall p :: !ClashComplaint(doc, p)) <==> NobodyReplacesListed(doc)
  {
    SeenMeans(doc);
    hide RoleKeyOk, Seen, Lists;
    if forall p :: !DefaultComplaint(doc, p) {
      assert !DefaultComplaint(doc, TwoDefaults);
      forall i, j | 0 <= i < j < |doc.roles| ensures !(doc.roles[i].isDefault && doc.roles[j].isDefault) {
        assert !(Default(doc, i) && Default(doc, j));
      }
    }
    if forall p :: !ClashComplaint(doc, p) {
      forall i: nat, x | i < |doc.roles| && x in doc.roles[i].supersedes ensures !Lists(doc, x) {
        assert !ClashComplaint(doc, ReplacesListed(i));
      }
    }
  }

  lemma AssignMeans(doc: Doc, a: Assign)
    requires forall i | 0 <= i < |doc.roles| :: RoleKeyOk(doc.roles[i].key)
    ensures (forall p :: !AssignComplaint(doc, a, p)) <==> ValidAssign(doc, a)
  {
    SeenMeans(doc);
    hide RoleKeyOk, Seen, Lists;
    if forall p :: !AssignComplaint(doc, a, p) {
      assert !AssignComplaint(doc, a, BadMode) && !AssignComplaint(doc, a, UnknownDefault);
      forall i: nat | i < |a.rules|
        ensures a.rules[i].role.Some? && Lists(doc, a.rules[i].role.value) && a.rules[i].unknownKeys == {}
      {
        assert !AssignComplaint(doc, a, BadRule(i)) && !AssignComplaint(doc, a, UnknownRuleKeys(i));
      }
      forall i: nat | i < |a.people| ensures Lists(doc, a.people[i].1) {
        assert !AssignComplaint(doc, a, UnknownRoleFor(i));
      }
    }
  }

  lemma ComplaintParts(doc: Doc, slug: Option<string>)
    ensures Acceptable(doc, slug)
            <==> && (forall p :: !HeaderComplaint(doc, slug, p)) && (forall p :: !RoleComplaint(doc, p))
                 && (forall p :: !DefaultComplaint(doc, p)) && (forall p :: !ClashComplaint(doc, p))
                 && (doc.assign.Some? ==> forall p :: !AssignComplaint(doc, doc.assign.value, p))
  {
    hide HeaderComplaint, RoleComplaint, DefaultComplaint, ClashComplaint, AssignComplaint;
    if Acceptable(doc, slug) {
      forall p ensures !HeaderComplaint(doc, slug, p) && !RoleComplaint(doc, p) && !DefaultComplaint(doc, p)
                       && !ClashComplaint(doc, p)
                       && (doc.assign.Some? ==> !AssignComplaint(doc, doc.assign.value, p))
      {
        assert !Complaint(doc, slug, p);
      }
    }
  }

  lemma RoleStandsIff(doc: Doc, i: int)
    requires 0 <= i < |doc.roles|
    ensures RoleStands(doc, i) && (forall x | x in doc.roles[i].supersedes :: !Lists(doc, x))
            <==> ValidRole(doc, doc.roles[i]) && forall j | 0 <= j < i :: doc.roles[j].key != doc.roles[i].key
  {
    NamesMean(doc, i);
    hide RoleKeyOk, Strip, AllBlank, KeyLike, Lists;
  }

  lemma RolesStandIff(doc: Doc)
    ensures AllStand(doc) && NobodyReplacesListed(doc) <==> ValidRoles(doc)
    ensures AllStand(doc) ==> forall i | 0 <= i < |doc.roles| :: RoleKeyOk(doc.roles[i].key)
  {
    forall i | 0 <= i < |doc.roles|
      ensures RoleStands(doc, i) ==> RoleKeyOk(doc.roles[i].key)
      ensures RoleStands(doc, i) && (forall x | x in doc.roles[i].supersedes :: !Lists(doc, x))
            <==> ValidRole(doc, doc.roles[i]) && forall j | 0 <= j < i :: doc.roles[j].key != doc.roles[i].key
    {
      RoleStandsIff(doc, i);
    }
    hide RoleStands, ValidRole, Lists, RoleKeyOk;
  }

  // Nothing is wrong with a file exactly when it is valid.
  lemma NothingWrongIff(doc: Doc, slug: Option<string>)
    ensures Acceptable(doc, slug) <==> ValidFile(doc, slug)
  {
    hide HeaderComplaint, RoleComplaint, DefaultComplaint, ClashComplaint, AssignComplaint, RoleKeyOk, AllStand,
      Acceptable, ValidAssign, ValidHeader, ValidRoles, OneDefault, NobodyReplacesListed;
    ComplaintParts(doc, slug);
    HeaderMeans(doc, slug);
    RolesMean(doc);
    RolesStandIff(doc);
    if AllStand(doc) {
      RestMeans(doc);
      if doc.assign.Some? {
        AssignMeans(doc, doc.assign.value);
      }
    }
  }

  // ---------------------------------------------------------------- the normal form

  // A list's first occurrences grow with the list, so each entry stands where it first came up.
  lemma {:induction false} FirstOccurrencesGrow(s: seq<string>, n: nat)
    requires n <= |s|
    ensures FirstOccurrences(s[..n]) <= FirstOccurrences(s)
  {
    if n == |s| {
      assert s[..n] == s;
    } else {
      var front := s[..|s| - 1];
      assert front[..n] == s[..n];
      FirstOccurrencesGrow(front, n);
    }
  }

  // The normal form writes the format, strips names, drops an empty description and repeated
  // permissions, and keeps everything else.
  lemma NormalKeeps(doc: Doc)
    ensures var n := Normal(doc);
            && n == doc.(format := Some("mmos-roles/1"), roles := n.roles) && |n.roles| == |doc.roles|
            && forall i | 0 <= i < |doc.roles| ::
                 var (r, m) := (doc.roles[i], n.roles[i]);
                 && m == r.(name := m.name, description := m.description, permissions := m.permissions)
                 && m.name == Strip(r.name)
                 && m.description == (if r.description == Some("") then None else r.description)
                 && Distinct(m.permissions) && (forall x :: x in m.permissions <==> x in r.permissions)
                 && forall k | 0 <= k <= |r.permissions| :: FirstOccurrences(r.permissions[..k]) <= m.permissions
  {
    forall i | 0 <= i < |doc.roles|
      ensures var (r, m) := (doc.roles[i], Normal(doc).roles[i]);
              Distinct(m.permissions)
              && forall k | 0 <= k <= |r.permissions| :: FirstOccurrences(r.permissions[..k]) <= m.permissions
    {
      FirstOccurrencesDistinct(doc.roles[i].permissions);
      forall k: nat | k <= |doc.roles[i].permissions|
        ensures FirstOccurrences(doc.roles[i].permissions[..k]) <= FirstOccurrences(doc.roles[i].permissions)
      {
        FirstOccurrencesGrow(doc.roles[i].permissions, k);
      }
    }
    hide FirstOccurrences, Strip, Distinct;
  }
}
