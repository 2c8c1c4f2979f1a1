/** Merging a service's suggested roles into the roles MM OS already has
    (backend/app/access_contract.py:67-80, 156-209). */
module DraftMerge {
  import opened Options
  import opened Text
  import opened RoleFile
  import RoleAssignment
  import RoleImport

  // A role of the service, in sort order.
  datatype Existing = Existing(key: string, name: string, description: Option<string>, isDefault: bool,
      permissions: seq<string>)

  datatype Suggested = Suggested(key: string, name: string, permissions: seq<string>)

  datatype Note = NothingLeft(key: string) | Loses(key: string, dropped: seq<string>) | KeptAsIs(key: string)

  function Only(ps: seq<string>, catalog: map<string, string>): (r: seq<string>)
    ensures forall p :: p in r <==> p in ps && p in catalog
  {
    if ps == [] then []
    else
      assert ps == [ps[0]] + ps[1..];
      (if ps[0] in catalog then [ps[0]] else []) + Only(ps[1..], catalog)
  }

  function Outside(ps: seq<string>, catalog: map<string, string>): (r: seq<string>)
    ensures forall p :: p in r <==> p in ps && p !in catalog
  {
    if ps == [] then []
    else
      assert ps == [ps[0]] + ps[1..];
      (if ps[0] !in catalog then [ps[0]] else []) + Outside(ps[1..], catalog)
  }

  // The suggested roles of a manifest; the first one listing an undeclared permission refuses it.
  method ParseRoles(catalog: map<string, string>, given: seq<Suggested>) returns (r: Result<seq<Suggested>, nat>)
    ensures r.Ok? <==> forall i | 0 <= i < |given| :: Outside(given[i].permissions, catalog) == []
    ensures r.Ok? ==> |r.value| == |given| && forall i | 0 <= i < |given| ::
              r.value[i] == given[i].(permissions := FirstOccurrences(given[i].permissions))
              && forall p | p in r.value[i].permissions :: p in catalog
    ensures r.Err? ==> r.error < |given| && Outside(given[r.error].permissions, catalog) != []
                       && forall i | 0 <= i < r.error :: Outside(given[i].permissions, catalog) == []
  {
    hide Outside, FirstOccurrences;
    var roles: seq<Suggested> := [];
    for i := 0 to |given|
      invariant |roles| == i
      invariant forall k | 0 <= k < i :: Outside(given[k].permissions, catalog) == []
      invariant forall k | 0 <= k < i :: roles[k] == given[k].(permissions := FirstOccurrences(given[k].permissions))
      invariant forall k, p | 0 <= k < i && p in roles[k].permissions :: p in catalog
    {
      var unknown := Outside(given[i].permissions, catalog);
      if unknown != [] {
        return Err(i);
      }
      assert forall p | p in given[i].permissions && p !in catalog :: p in unknown;
      roles := roles + [given[i].(permissions := FirstOccurrences(given[i].permissions))];
    }
    return Ok(roles);
  }

  // ---------------------------------------------------------------- the merge

  function Lookup(existing: seq<Existing>, key: string): (r: Option<Existing>)
    ensures r.None? <==> forall i | 0 <= i < |existing| :: existing[i].key != key
    ensures r.Some? ==> r.value in existing && r.value.key == key
  {
    if existing == [] then None
    else
      assert existing == existing[..|existing| - 1] + [existing[|existing| - 1]];
      if existing[|existing| - 1].key == key then Some(existing[|existing| - 1])
          else Lookup(existing[..|existing| - 1], key)
  }

  // A suggested role keeps the name, meaning and default flag MM OS has for it.
  function SuggestedSpec(existing: seq<Existing>, s: Suggested): RoleSpec {
    match Lookup(existing, s.key)
    case Some(cur) => RoleSpec(s.key, cur.name, cur.description, cur.isDefault, s.permissions, [])
    case None => RoleSpec(s.key, s.name, None, false, s.permissions, [])
  }

  function SuggestedSpecs(existing: seq<Existing>, suggested: seq<Suggested>): (r: seq<RoleSpec>)
    ensures |r| == |suggested|
  {
    seq(|suggested|, i requires 0 <= i < |suggested| => SuggestedSpec(existing, suggested[i]))
  }

  function KeptSpec(r: Existing, catalog: map<string, string>): RoleSpec {
    RoleSpec(r.key, r.name, r.description, r.isDefault, Only(r.permissions, catalog), [])
  }

  function NoteFor(r: Existing, catalog: map<string, string>): Note {
    if Only(r.permissions, catalog) == [] then NothingLeft(r.key)
    else if Outside(r.permissions, catalog) != [] then Loses(r.key, Outside(r.permissions, catalog))
    else KeptAsIs(r.key)
  }

  function IndexOf(roles: seq<RoleSpec>, key: string): (r: Option<nat>)
    ensures r.None? <==> forall i | 0 <= i < |roles| :: roles[i].key != key
    ensures r.Some? ==>
              && r.value < |roles| && roles[r.value].key == key
              && forall i | 0 <= i < r.value :: roles[i].key != key
  {
    if roles == [] then None
    else if roles[0].key == key then Some(0)
    else
      assert forall i | 1 <= i < |roles| :: roles[i] == roles[1..][i - 1];
      match IndexOf(roles[1..], key)
      case None => None
      case Some(i) => Some(i + 1)
  }

  // Just behind the nearest earlier role that is listed, or first.
  function Position(roles: seq<RoleSpec>, existing: seq<Existing>, idx: nat): (p: nat)
    requires idx <= |existing|
    ensures p <= |roles|
  {
    if idx == 0 then 0
    else
      match IndexOf(roles, existing[idx - 1].key)
      case Some(j) => j + 1
      case None => Position(roles, existing, idx - 1)
  }

  function InsertAt(roles: seq<RoleSpec>, p: nat, r: RoleSpec): seq<RoleSpec>
    requires p <= |roles|
  {
    roles[..p] + [r] + roles[p..]
  }

  predicate IsSuggested(suggested: seq<Suggested>, key: string) {
    exists i :: 0 <= i < |suggested| && suggested[i].key == key
  }

  // The list after the first `n` existing roles.
  function DraftUpTo(existing: seq<Existing>, suggested: seq<Suggested>, catalog: map<string, string>,
      n: nat): seq<RoleSpec>
    requires n <= |existing|
  {
    if n == 0 then SuggestedSpecs(existing, suggested)
    else
      var roles := DraftUpTo(existing, suggested, catalog, n - 1);
      var r := existing[n - 1];
      if IsSuggested(suggested, r.key) then roles
      else InsertAt(roles, Position(roles, existing, n - 1), KeptSpec(r, catalog))
  }

  function NotesUpTo(existing: seq<Existing>, suggested: seq<Suggested>, catalog: map<string, string>,
      n: nat): seq<Note>
    requires n <= |existing|
  {
    if n == 0 then []
    else NotesUpTo(existing, suggested, catalog, n - 1)
         + (if IsSuggested(suggested, existing[n - 1].key) then [] else [NoteFor(existing[n - 1], catalog)])
  }

  function Draft(existing: seq<Existing>, suggested: seq<Suggested>, catalog: map<string, string>): seq<RoleSpec> {
    DraftUpTo(existing, suggested, catalog, |existing|)
  }

  method FindPosition(roles: seq<RoleSpec>, existing: seq<Existing>, idx: nat) returns (p: nat)
    requires idx <= |existing|
    ensures p == Position(roles, existing, idx)
  {
    var k: nat := idx;
    while k > 0
      invariant 0 <= k <= idx && Position(roles, existing, idx) == Position(roles, existing, k)
    {
      k := k - 1;
      var j := IndexOf(roles, existing[k].key);
      if j.Some? {
        return j.value + 1;
      }
    }
    return 0;
  }

  // draft_role_file
  method DraftRoleFile(slug: string, existing: seq<Existing>, suggested: seq<Suggested>, catalog: map<string, string>)
    returns (doc: Doc, notes: seq<Note>)
    ensures doc == Doc(Some(FORMAT), Some(slug), catalog, Draft(existing, suggested, catalog), false, None)
    ensures notes == NotesUpTo(existing, suggested, catalog, |existing|)
  {
    var roles: seq<RoleSpec> := [];
    for i := 0 to |suggested|
      invariant roles == SuggestedSpecs(existing, suggested)[..i]
    {
      roles := roles + [SuggestedSpec(existing, suggested[i])];
    }
    notes := [];
    for idx := 0 to |existing|
      invariant roles == DraftUpTo(existing, suggested, catalog, idx)
      invariant notes == NotesUpTo(existing, suggested, catalog, idx)
    {
      var r := existing[idx];
      if IsSuggested(suggested, r.key) {
        continue;
      }
      var p := FindPosition(roles, existing, idx);
      roles := roles[..p] + [KeptSpec(r, catalog)] + roles[p..];
      notes := notes + [NoteFor(r, catalog)];
    }
    doc := Doc(Some(FORMAT), Some(slug), catalog, roles, false, None);
  }

  // ---------------------------------------------------------------- what the merge keeps

  ghost predicate DistinctExisting(existing: seq<Existing>) {
    forall i, j | 0 <= i < j < |existing| :: existing[i].key != existing[j].key
  }

  ghost predicate DistinctSuggested(suggested: seq<Suggested>) {
    forall i, j | 0 <= i < j < |suggested| :: suggested[i].key != suggested[j].key
  }

  ghost predicate DistinctRoles(roles: seq<RoleSpec>) {
    forall i, j | 0 <= i < j < |roles| :: roles[i].key != roles[j].key
  }

  // Role `m` stands right behind its predecessor, or first.
  ghost predicate InPlace(roles: seq<RoleSpec>, existing: seq<Existing>, m: int)
    requires 0 <= m < |existing|
  {
    if m == 0 then roles != [] && roles[0].key == existing[0].key
    else exists p :: 0 < p < |roles| && roles[p].key == existing[m].key && roles[p - 1].key == existing[m - 1].key
  }

  // Suggested roles never swap places.
  ghost predicate KeepsOrder(roles: seq<RoleSpec>, suggested: seq<Suggested>) {
    forall i, j, p, q | 0 <= i < j < |suggested| && 0 <= p < |roles| && 0 <= q < |roles|
      && roles[p].key == suggested[i].key && roles[q].key == suggested[j].key :: p < q
  }

  predicate Has(roles: seq<RoleSpec>, key: string) {
    exists p :: 0 <= p < |roles| && roles[p].key == key
  }

  lemma Inserted(roles: seq<RoleSpec>, p: nat, r: RoleSpec, i: int)
    requires p <= |roles|
    ensures var s := InsertAt(roles, p, r);
            && |s| == |roles| + 1
            && (0 <= i < p ==> s[i] == roles[i]) && s[p] == r && (p < i < |s| ==> s[i] == roles[i - 1])
  {}

  lemma InsertDistinct(roles: seq<RoleSpec>, p: nat, r: RoleSpec)
    requires p <= |roles| && DistinctRoles(roles) && !Has(roles, r.key)
    ensures DistinctRoles(InsertAt(roles, p, r))
    ensures forall k :: Has(InsertAt(roles, p, r), k) <==> Has(roles, k) || k == r.key
  {
    var s := InsertAt(roles, p, r);
    forall i { Inserted(roles, p, r, i); }
    forall k ensures Has(s, k) <==> Has(roles, k) || k == r.key {
      if Has(roles, k) {
        var q :| 0 <= q < |roles| && roles[q].key == k;
        assert s[if q < p then q else q + 1].key == k;
      }
      assert s[p].key == r.key;
    }
  }

  lemma InsertKeepsOrder(roles: seq<RoleSpec>, p: nat, r: RoleSpec, suggested: seq<Suggested>)
    requires p <= |roles| && KeepsOrder(roles, suggested) && !IsSuggested(suggested, r.key)
    ensures KeepsOrder(InsertAt(roles, p, r), suggested)
  {
    var s := InsertAt(roles, p, r);
    forall i { Inserted(roles, p, r, i); }
    forall i, j, x, y | 0 <= i < j < |suggested| && 0 <= x < |s| && 0 <= y < |s| && s[x].key == suggested[i].key
      && s[y].key == suggested[j].key
      ensures x < y
    {
      var x', y' := if x < p then x else x - 1, if y < p then y else y - 1;
      assert x != p && y != p;
      assert roles[x'].key == suggested[i].key && roles[y'].key == suggested[j].key;
    }
  }

  // Inserting behind somebody else's place does not part role `m` from its predecessor.
  lemma InsertKeepsPlace(roles: seq<RoleSpec>, existing: seq<Existing>, n: int, r: RoleSpec, m: int)
    requires 0 <= m < n < |existing| && DistinctRoles(roles) && DistinctExisting(existing)
    requires Has(roles, existing[n - 1].key) && InPlace(roles, existing, m)
    ensures InPlace(InsertAt(roles, Position(roles, existing, n), r), existing, m)
  {
    var p := Position(roles, existing, n);
    assert p > 0 && roles[p - 1].key == existing[n - 1].key;
    var s := InsertAt(roles, p, r);
    Inserted(roles, p, r, 0);
    if m > 0 {
      var q :| 0 < q < |roles| && roles[q].key == existing[m].key && roles[q - 1].key == existing[m - 1].key;
      assert q != p;
      var q' := if q < p then q else q + 1;
      Inserted(roles, p, r, q');
      Inserted(roles, p, r, q' - 1);
      assert s[q'].key == existing[m].key && s[q' - 1].key == existing[m - 1].key;
    }
  }

  lemma InsertedInPlace(roles: seq<RoleSpec>, existing: seq<Existing>, n: int, r: RoleSpec)
    requires 0 <= n < |existing| && r.key == existing[n].key && (n > 0 ==> Has(roles, existing[n - 1].key))
    ensures InPlace(InsertAt(roles, Position(roles, existing, n), r), existing, n)
  {
    var p := Position(roles, existing, n);
    var s := InsertAt(roles, p, r);
    assert s[p] == r;
    if n > 0 {
      assert s[p - 1] == roles[p - 1];
    }
  }

  ghost predicate Shape(roles: seq<RoleSpec>, existing: seq<Existing>, suggested: seq<Suggested>, n: int)
    requires 0 <= n <= |existing|
  {
    && DistinctRoles(roles) && KeepsOrder(roles, suggested)
    && (forall k :: Has(roles, k) <==> IsSuggested(suggested, k) || exists m :: 0 <= m < n && existing[m].key == k)
    && (forall m | 0 <= m < n && !IsSuggested(suggested, existing[m].key) :: InPlace(roles, existing, m))
  }

  lemma SuggestedShape(existing: seq<Existing>, suggested: seq<Suggested>)
    requires DistinctSuggested(suggested)
    ensures Shape(SuggestedSpecs(existing, suggested), existing, suggested, 0)
  {
    var roles := SuggestedSpecs(existing, suggested);
    assert forall i | 0 <= i < |suggested| :: roles[i].key == suggested[i].key;
    hide SuggestedSpecs;
    forall k ensures Has(roles, k) <==> IsSuggested(suggested, k) {
      if IsSuggested(suggested, k) {
        var i :| 0 <= i < |suggested| && suggested[i].key == k;
        assert roles[i].key == k;
      }
    }
  }

  lemma {:induction false} DraftShape(existing: seq<Existing>, suggested: seq<Suggested>,
      catalog: map<string, string>, n: nat)
    requires DistinctExisting(existing) && DistinctSuggested(suggested) && n <= |existing|
    ensures Shape(DraftUpTo(existing, suggested, catalog, n), existing, suggested, n)
  {
    hide DistinctExisting, DistinctSuggested, DistinctRoles, KeepsOrder, InPlace, Has, IsSuggested, InsertAt, Position;
    if n == 0 {
      SuggestedShape(existing, suggested);
    } else {
      DraftShape(existing, suggested, catalog, n - 1);
      var roles := DraftUpTo(existing, suggested, catalog, n - 1);
      var r := existing[n - 1];
      if !IsSuggested(suggested, r.key) {
        var spec := KeptSpec(r, catalog);
        var p := Position(roles, existing, n - 1);
        EarlierKeysDiffer(existing, n - 1);
        InsertDistinct(roles, p, spec);
        InsertKeepsOrder(roles, p, spec, suggested);
        InsertedInPlace(roles, existing, n - 1, spec);
        forall m | 0 <= m < n - 1 && !IsSuggested(suggested, existing[m].key)
          ensures InPlace(InsertAt(roles, p, spec), existing, m)
        {
          InsertKeepsPlace(roles, existing, n - 1, spec, m);
        }
      }
    }
  }

  lemma EarlierKeysDiffer(existing: seq<Existing>, n: int)
    requires DistinctExisting(existing) && 0 <= n < |existing|
    ensures forall m | 0 <= m < n :: existing[m].key != existing[n].key
  {}

  // Every existing and every suggested role is listed exactly once; the suggested ones keep their
  // order; each kept one stands right behind its predecessor, or first.
  lemma DraftMerges(existing: seq<Existing>, suggested: seq<Suggested>, catalog: map<string, string>)
    requires DistinctExisting(existing) && DistinctSuggested(suggested)
    ensures Shape(Draft(existing, suggested, catalog), existing, suggested, |existing|)
  {
    DraftShape(existing, suggested, catalog, |existing|);
  }

  lemma InsertMembers(roles: seq<RoleSpec>, p: nat, r: RoleSpec)
    requires p <= |roles|
    ensures forall x | x in InsertAt(roles, p, r) :: x in roles || x == r
  {}

  // Where each listed role comes from.
  lemma {:induction false} DraftSources(existing: seq<Existing>, suggested: seq<Suggested>,
      catalog: map<string, string>, n: nat)
    requires n <= |existing|
    ensures forall x | x in DraftUpTo(existing, suggested, catalog, n) ::
              (exists i :: 0 <= i < |suggested| && x == SuggestedSpec(existing, suggested[i]))
              || (exists m :: && 0 <= m < n && !IsSuggested(suggested, existing[m].key)
                              && x == KeptSpec(existing[m], catalog))
  {
    hide IsSuggested, SuggestedSpec, KeptSpec, Position, InsertAt;
    if n > 0 {
      DraftSources(existing, suggested, catalog, n - 1);
      var roles := DraftUpTo(existing, suggested, catalog, n - 1);
      InsertMembers(roles, Position(roles, existing, n - 1), KeptSpec(existing[n - 1], catalog));
    }
  }

  lemma {:induction false} NotesSay(existing: seq<Existing>, suggested: seq<Suggested>, catalog: map<string, string>,
      n: nat)
    requires n <= |existing| && DistinctExisting(existing)
    ensures forall m | 0 <= m < n && !IsSuggested(suggested, existing[m].key) ::
        NoteFor(existing[m], catalog) in NotesUpTo(existing, suggested, catalog, n)
    ensures forall x | x in NotesUpTo(existing, suggested, catalog, n) ::
              exists m :: 0 <= m < n && !IsSuggested(suggested, existing[m].key) && x == NoteFor(existing[m], catalog)
  {
    hide IsSuggested, NoteFor, DistinctExisting;
    if n > 0 {
      NotesSay(existing, suggested, catalog, n - 1);
    }
  }

  // Only catalog permissions are listed.
  lemma DraftListsTheCatalog(existing: seq<Existing>, suggested: seq<Suggested>, catalog: map<string, string>)
    requires forall i, p | 0 <= i < |suggested| && p in suggested[i].permissions :: p in catalog
    ensures forall x, p | x in Draft(existing, suggested, catalog) && p in x.permissions :: p in catalog
  {
    hide DraftUpTo, IsSuggested, Lookup;
    DraftSources(existing, suggested, catalog, |existing|);
    forall x, p | x in Draft(existing, suggested, catalog) && p in x.permissions ensures p in catalog {
      if i :| 0 <= i < |suggested| && x == SuggestedSpec(existing, suggested[i]) {
        assert x.permissions == suggested[i].permissions;
      }
    }
  }

  // A kept role is left with no permissions exactly when a note says so.
  lemma EmptyRolesAreNoted(existing: seq<Existing>, suggested: seq<Suggested>, catalog: map<string, string>, m: int)
    requires DistinctExisting(existing) && 0 <= m < |existing| && !IsSuggested(suggested, existing[m].key)
    ensures KeptSpec(existing[m], catalog).permissions == []
            <==> NothingLeft(existing[m].key) in NotesUpTo(existing, suggested, catalog, |existing|)
  {
    hide NotesUpTo, IsSuggested, Only, Outside;
    NotesSay(existing, suggested, catalog, |existing|);
  }

  // Importing a draft moves nobody and deletes no role.
  lemma DraftMovesNobody(a: RoleAssignment.Access, slug: string, existing: seq<Existing>, suggested: seq<Suggested>,
      catalog: map<string, string>, override: Option<string>, roster: seq<RoleAssignment.Person>)
    ensures var doc := Doc(Some(FORMAT), Some(slug), catalog, Draft(existing, suggested, catalog), false, None);
            var r := RoleImport.Applied(a, doc, slug, override, roster).access;
            r.grants == a.grants && a.roles.Keys <= r.roles.Keys
  {
    var doc := Doc(Some(FORMAT), Some(slug), catalog, Draft(existing, suggested, catalog), false, None);
    DraftSources(existing, suggested, catalog, |existing|);
    hide DraftUpTo, IsSuggested, Lookup, RoleImport.DeclareUpTo;
    forall i | 0 <= i < |doc.roles| ensures doc.roles[i].supersedes == [] {
      assert doc.roles[i] in Draft(existing, suggested, catalog);
    }
    assert forall k :: !RoleImport.Superseded(doc, k);
    assert RoleImport.Moves(a.roles.Keys, doc) == map[];
  }
}
