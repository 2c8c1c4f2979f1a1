/** Applying a role file to a service: catalog, roles, `replaces`, `remove_unlisted`, `assign`
    (backend/app/roles_io.py:67-81, 366-449). */
module RoleImport {
  import opened Options
  import opened RoleAssignment
  import opened RoleFile

  // ---------------------------------------------------------------- what a file declares

  function Keys(doc: Doc): set<string> {
    set i | 0 <= i < |doc.roles| :: doc.roles[i].key
  }

  function KeysBefore(doc: Doc, n: int): (keys: set<string>)
    ensures keys <= Keys(doc)
    ensures n >= |doc.roles| ==> keys == Keys(doc)
  {
    set i | 0 <= i < |doc.roles| && i < n :: doc.roles[i].key
  }

  ghost predicate DistinctKeys(doc: Doc) {
    forall i, j | 0 <= i < j < |doc.roles| :: doc.roles[i].key != doc.roles[j].key
  }

  ghost predicate SupersededAre(doc: Doc, i: int, j: int, k: string) {
    0 <= i < |doc.roles| && 0 <= j < |doc.roles[i].supersedes| && doc.roles[i].supersedes[j] == k
  }

  // A file as validation returns it.
  ghost predicate Validated(doc: Doc) {
    Acceptable(doc, None) && Normal(doc) == doc
  }

  // What validation guarantees an import.
  ghost predicate Coherent(doc: Doc) {
    && DistinctKeys(doc)
    && (forall i, x | 0 <= i < |doc.roles| && x in doc.roles[i].supersedes :: x !in Keys(doc))
    && (doc.assign.Some? ==> forall p ::
      SourceFor(doc.assign.value, p).0.Some? ==> SourceFor(doc.assign.value, p).0.value in Keys(doc))
  }

  lemma AssignNamesListedRoles(doc: Doc, p: Person)
    requires Acceptable(doc, None) && doc.assign.Some?
    ensures SourceFor(doc.assign.value, p).0.Some? ==> SourceFor(doc.assign.value, p).0.value in Seen(doc)
  {
    hide Seen, RuleMatches, Idents;
    var a := doc.assign.value;
    forall q ensures !AssignComplaint(doc, a, q) {
      assert !Complaint(doc, None, q);
    }
    forall i | 0 <= i < |a.people| ensures a.people[i].1 in Seen(doc) {
      assert !AssignComplaint(doc, a, UnknownRoleFor(i));
    }
    forall i | 0 <= i < |a.rules| ensures RuleNamed(doc, a.rules[i]) {
      assert !AssignComplaint(doc, a, BadRule(i));
    }
    assert !AssignComplaint(doc, a, UnknownDefault);
    var named := FirstNamed(a.people, Idents(p));
    if named.Some? {
      var k :| 0 <= k < |Idents(p)| && NamedRole(a.people, Idents(p)[k]) == named;
      assert named.value in Seen(doc);
    }
  }

  lemma ValidatedIsCoherent(doc: Doc)
    requires Validated(doc)
    ensures Coherent(doc)
    ensures doc.roles != []
  {
    hide SourceFor;
    forall i | 0 <= i < |doc.roles| ensures Keyed(doc, i) {
      assert !Complaint(doc, None, BadRoleKey(i));
    }
    forall k | k in Keys(doc) ensures k in Seen(doc) {
      var i :| 0 <= i < |doc.roles| && doc.roles[i].key == k;
      assert Keyed(doc, i);
    }
    forall i, j | 0 <= i < j < |doc.roles| ensures doc.roles[i].key != doc.roles[j].key {
      assert !Complaint(doc, None, ListedTwice(j));
    }
    forall i, x | 0 <= i < |doc.roles| && x in doc.roles[i].supersedes ensures x !in Keys(doc) {
      assert !Complaint(doc, None, ReplacesListed(i));
    }
    if doc.assign.Some? {
      forall p ensures SourceFor(doc.assign.value, p).0.Some? ==> SourceFor(doc.assign.value, p).0.value in Keys(doc) {
        AssignNamesListedRoles(doc, p);
      }
    }
    assert !Complaint(doc, None, NoRoles);
  }

  ghost function IndexOf(doc: Doc, k: string): (i: int)
    requires k in Keys(doc)
    ensures 0 <= i < |doc.roles| && doc.roles[i].key == k
  {
    var i :| 0 <= i < |doc.roles| && doc.roles[i].key == k;
    i
  }

  function RoleOf(spec: RoleSpec, i: int): Role {
    Role(spec.name, spec.description, spec.isDefault, spec.permissions, (i + 1) * 10)
  }

  ghost function DeclaredRole(doc: Doc, k: string): Role
    requires k in Keys(doc)
  {
    RoleOf(doc.roles[IndexOf(doc, k)], IndexOf(doc, k))
  }

  // Everything but the position in the list.
  predicate SameRole(r: Role, s: Role) {
    r.(sortOrder := 0) == s.(sortOrder := 0)
  }

  // ---------------------------------------------------------------- the four passes

  function Holders(a: Access, keys: set<string>): set<UserId> {
    set u | u in a.grants && a.grants[u] in keys
  }

  // The first `n` declared roles whose permission list the file changes.
  ghost function Relisted(a: Access, doc: Doc, n: int): set<string> {
    set k | k in KeysBefore(doc, n) && k in a.roles && a.roles[k].permissions != DeclaredRole(doc, k).permissions
  }

  ghost function Reworded(a: Access, doc: Doc, n: int): set<string> {
    set k | k in KeysBefore(doc, n) && k in a.roles && !SameRole(a.roles[k], DeclaredRole(doc, k))
  }

  ghost function DeclaredRoles(a: Access, doc: Doc, n: int): map<string, Role> {
    map k | k in a.roles.Keys + KeysBefore(doc, n) ::
      if k in KeysBefore(doc, n) then DeclaredRole(doc, k) else a.roles[k]
  }

  // The role loop after its first `n` roles.
  ghost function DeclareUpTo(s: Import, doc: Doc, n: int): Import {
    Import(s.access.(roles := DeclaredRoles(s.access, doc, n),
                     cutoffs := s.access.cutoffs + multiset(Holders(s.access, Relisted(s.access, doc, n)))),
           s.plan.(created := s.plan.created + (KeysBefore(doc, n) - s.access.roles.Keys),
                   updated := s.plan.updated + Reworded(s.access, doc, n)))
  }

  ghost function Catalogued(s: Import, doc: Doc): Import {
    Import(s.access.(catalog := doc.permissions),
           s.plan.(catalogChanged := s.plan.catalogChanged || s.access.catalog != doc.permissions))
  }

  ghost function Declared(s: Import, doc: Doc): Import {
    DeclareUpTo(Catalogued(s, doc), doc, |doc.roles|)
  }

  ghost predicate Superseded(doc: Doc, k: string) {
    exists i, j :: SupersededAre(doc, i, j, k)
  }

  // The first declared role, from the i-th on, that replaces `k`.
  ghost function FirstReplacer(doc: Doc, k: string, i: nat): (r: int)
    requires exists x, y :: i <= x && SupersededAre(doc, x, y, k)
    ensures i <= r < |doc.roles| && exists y :: SupersededAre(doc, r, y, k)
    ensures forall x, y | i <= x < r :: !SupersededAre(doc, x, y, k)
    decreases |doc.roles| - i
  {
    if exists y :: SupersededAre(doc, i, y, k) then i else FirstReplacer(doc, k, i + 1)
  }

  // Whoever names an old role first gets its holders; by the second time nobody is left to move.
  ghost function Successor(doc: Doc, k: string): (t: string)
    requires Superseded(doc, k)
    ensures t in Keys(doc)
  {
    doc.roles[FirstReplacer(doc, k, 0)].key
  }

  // Old role to new, for the old roles that exist.
  ghost function Moves(existing: set<string>, doc: Doc): map<string, string> {
    map k | k in existing && Superseded(doc, k) :: Successor(doc, k)
  }

  function Follow(moves: map<string, string>, grants: map<UserId, string>): map<UserId, string> {
    map u | u in grants :: if grants[u] in moves then moves[grants[u]] else grants[u]
  }

  function MovesOf(moves: map<string, string>, grants: map<UserId, string>): set<Move> {
    set u | u in grants && grants[u] in moves :: Move(u, grants[u], moves[grants[u]])
  }

  function MoveAll(s: Import, moves: map<string, string>): Import {
    Import(s.access.(roles := s.access.roles - moves.Keys,
                     grants := Follow(moves, s.access.grants),
                     cutoffs := s.access.cutoffs + multiset(Holders(s.access, moves.Keys))),
           s.plan.(removed := s.plan.removed + moves.Keys, moved := s.plan.moved + MovesOf(moves, s.access.grants)))
  }

  // Roles that exist, are not listed and are not replaced.
  ghost function Unlisted(existing: set<string>, doc: Doc): set<string> {
    set k | k in existing && k !in Keys(doc) && !Superseded(doc, k)
  }

  function Held(a: Access, keys: set<string>): set<string> {
    set k | k in keys && k in a.grants.Values
  }

  ghost function Pruned(s: Import, existing: set<string>, doc: Doc): Import {
    var candidates := Unlisted(existing, doc);
    var held := Held(s.access, candidates);
    if !doc.removeUnlisted then s
    else Import(s.access.(roles := s.access.roles - (candidates - held)),
                s.plan.(removed := s.plan.removed + (candidates - held),
                        warnings := s.plan.warnings + set k | k in held :: KeptRole(k)))
  }

  function ModeOf(override: Option<string>, a: Assign): string {
    if override.Some? && override.value != "" then override.value
    else if a.mode.Some? then a.mode.value
    else "missing"
  }

  function FileScope(slug: string, override: Option<string>, a: Assign): Scope {
    Scope(slug, ModeOf(override, a), false, None, {})
  }

  function AssignedByFile(s: Import, doc: Doc, slug: string, override: Option<string>, roster: seq<Person>): Import {
    if doc.assign.None? then s
    else Assigned(s, doc.assign.value, FileScope(slug, override, doc.assign.value), roster)
  }

  ghost function Unassigned(a: Access, doc: Doc): Import {
    var s := Declared(Import(a, EMPTY_PLAN), doc);
    Pruned(MoveAll(s, Moves(a.roles.Keys, doc)), a.roles.Keys, doc)
  }

  // apply, as one transformation of the service.
  ghost function Applied(a: Access, doc: Doc, slug: string, override: Option<string>, roster: seq<Person>): Import {
    AssignedByFile(Unassigned(a, doc), doc, slug, override, roster)
  }

  // ---------------------------------------------------------------- apply, row by row

  lemma MultisetUnion(x: set<UserId>, y: set<UserId>)
    requires x !! y
    ensures multiset(x + y) == multiset(x) + multiset(y)
  {}

  // revoke_role_holders
  method RevokeRoleHolders(db: ServiceAccess, role: string) returns (count: nat)
    modifies db`cutoffs
    ensures db.cutoffs == old(db.cutoffs) + multiset(Holders(old(db.View()).access, {role}))
    ensures count == |Holders(old(db.View()).access, {role})|
  {
    var subjects := set u | u in db.grants && db.grants[u] == role;
    assert subjects == Holders(db.View().access, {role});
    var todo := subjects;
    while todo != {}
      invariant todo <= subjects
      invariant db.cutoffs == old(db.cutoffs) + multiset(subjects - todo)
      decreases todo
    {
      var u :| u in todo;
      db.cutoffs := db.cutoffs + multiset{u};
      assert subjects - (todo - {u}) == (subjects - todo) + {u};
      todo := todo - {u};
    }
    assert subjects - todo == subjects;
    count := |subjects|;
  }

  lemma IndexOfKey(doc: Doc, i: int)
    requires DistinctKeys(doc) && 0 <= i < |doc.roles|
    ensures doc.roles[i].key in Keys(doc) && DeclaredRole(doc, doc.roles[i].key) == RoleOf(doc.roles[i], i)
    ensures doc.roles[i].key !in KeysBefore(doc, i)
    ensures KeysBefore(doc, i + 1) == KeysBefore(doc, i) + {doc.roles[i].key}
  {
    assert doc.roles[i].key in Keys(doc);
  }

  lemma DeclareOneMore(a: Access, doc: Doc, i: int)
    requires DistinctKeys(doc) && 0 <= i < |doc.roles|
    ensures var k := doc.roles[i].key;
            var r := RoleOf(doc.roles[i], i);
            && DeclaredRoles(a, doc, i + 1) == DeclaredRoles(a, doc, i)[k := r]
            && Relisted(a, doc, i + 1)
              == Relisted(a, doc, i) + (if k in a.roles && a.roles[k].permissions != r.permissions then {k} else {})
            && Reworded(a, doc, i + 1)
              == Reworded(a, doc, i) + (if k in a.roles && !SameRole(a.roles[k], r) then {k} else {})
            && k !in Relisted(a, doc, i)
  {
    hide Keys, KeysBefore, DeclaredRole, RoleOf;
    IndexOfKey(doc, i);
  }

  lemma HoldersOfOneMore(a: Access, keys: set<string>, k: string)
    requires k !in keys
    ensures multiset(Holders(a, keys + {k})) == multiset(Holders(a, keys)) + multiset(Holders(a, {k}))
  {
    assert Holders(a, keys + {k}) == Holders(a, keys) + Holders(a, {k});
    MultisetUnion(Holders(a, keys), Holders(a, {k}));
  }

  lemma HoldersFromGrants(a: Access, b: Access, keys: set<string>)
    requires a.grants == b.grants
    ensures Holders(a, keys) == Holders(b, keys)
  {}

  method DeclareOne(db: ServiceAccess, doc: Doc, i: nat, existing: map<string, Role>, ghost s: Import)
    requires DistinctKeys(doc) && i < |doc.roles| && existing == s.access.roles
    requires db.View() == DeclareUpTo(s, doc, i)
    modifies db`roles, db`cutoffs, db`plan
    ensures db.View() == DeclareUpTo(s, doc, i + 1)
  {
    hide DeclaredRoles, Relisted, Reworded, KeysBefore, Holders, DistinctKeys, Keys, DeclaredRole;
    var spec := doc.roles[i];
    var fields := RoleOf(spec, i);
    IndexOfKey(doc, i);
    DeclareOneMore(s.access, doc, i);
    if spec.key !in existing {
      db.roles := db.roles[spec.key := fields];
      db.plan := db.plan.(created := db.plan.created + {spec.key});
      assert KeysBefore(doc, i + 1) - existing.Keys == (KeysBefore(doc, i) - existing.Keys) + {spec.key};
      assert Relisted(s.access, doc, i + 1) == Relisted(s.access, doc, i);
      assert Reworded(s.access, doc, i + 1) == Reworded(s.access, doc, i);
    } else {
      assert KeysBefore(doc, i + 1) - existing.Keys == KeysBefore(doc, i) - existing.Keys;
      var role := existing[spec.key];
      var permsChanged := role.permissions != spec.permissions;
      db.roles := db.roles[spec.key := fields];
      if !SameRole(role, fields) {
        db.plan := db.plan.(updated := db.plan.updated + {spec.key});
      } else {
        assert Reworded(s.access, doc, i + 1) == Reworded(s.access, doc, i);
      }
      if permsChanged {
        HoldersOfOneMore(s.access, Relisted(s.access, doc, i), spec.key);
        HoldersFromGrants(db.View().access, s.access, {spec.key});
        var n := RevokeRoleHolders(db, spec.key);
      } else {
        assert Relisted(s.access, doc, i + 1) == Relisted(s.access, doc, i);
      }
    }
  }

  method DeclareRoles(db: ServiceAccess, doc: Doc)
    requires DistinctKeys(doc)
    modifies db`catalog, db`roles, db`cutoffs, db`plan
    ensures db.View() == Declared(old(db.View()), doc)
  {
    hide DeclaredRoles, Holders;
    if db.catalog != doc.permissions {
      db.catalog := doc.permissions;
      db.plan := db.plan.(catalogChanged := true);
    }
    ghost var s := db.View();
    assert s == Catalogued(old(db.View()), doc);
    var existing := db.roles;
    NothingDeclared(s, doc);
    for i := 0 to |doc.roles|
      invariant db.View() == DeclareUpTo(s, doc, i)
    {
      DeclareOne(db, doc, i, existing, s);
    }
  }

  lemma NobodyHolds(a: Access)
    ensures Holders(a, {}) == {}
  {}

  lemma NothingDeclared(s: Import, doc: Doc)
    ensures DeclareUpTo(s, doc, 0) == s
  {
    hide Holders, DeclaredRole, SameRole;
    assert KeysBefore(doc, 0) == {};
    NobodyHolds(s.access);
    hide KeysBefore;
    assert Relisted(s.access, doc, 0) == {} && Reworded(s.access, doc, 0) == {};
    assert DeclaredRoles(s.access, doc, 0) == s.access.roles;
  }

  // Moving one more old role, when nothing moves onto it.
  lemma FollowOneMore(moves: map<string, string>, k: string, t: string, grants: map<UserId, string>)
    requires k !in moves && k !in moves.Values
    ensures Follow(moves[k := t], grants) == Follow(map[k := t], Follow(moves, grants))
    ensures forall u | u in grants :: Follow(moves, grants)[u] == k <==> grants[u] == k
  {
    forall u | u in grants ensures Follow(moves, grants)[u] == k <==> grants[u] == k {
      if grants[u] in moves {
        assert moves[grants[u]] in moves.Values;
      }
    }
  }

  lemma MovesOfOneMore(moves: map<string, string>, k: string, t: string, grants: map<UserId, string>)
    requires k !in moves && k !in moves.Values
    ensures MovesOf(moves[k := t], grants) == MovesOf(moves, grants) + MovesOf(map[k := t], Follow(moves, grants))
  {
    FollowOneMore(moves, k, t, grants);
    hide Follow;
  }

  lemma HoldersAfterMoves(a: Access, moves: map<string, string>, k: string, t: string)
    requires k !in moves && k !in moves.Values
    ensures multiset(Holders(a, moves[k := t].Keys)) ==
            multiset(Holders(a, moves.Keys)) + multiset(Holders(a.(grants := Follow(moves, a.grants)), {k}))
  {
    FollowOneMore(moves, k, t, a.grants);
    assert Holders(a.(grants := Follow(moves, a.grants)), {k}) == Holders(a, {k}) by { hide Follow; }
    assert moves[k := t].Keys == moves.Keys + {k};
    hide Follow, Holders;
    HoldersOfOneMore(a, moves.Keys, k);
  }

  lemma MoveOneMore(s: Import, moves: map<string, string>, k: string, t: string)
    requires k !in moves && k !in moves.Values
    ensures MoveAll(s, moves[k := t]) == MoveAll(MoveAll(s, moves), map[k := t])
  {
    hide Follow, MovesOf, Holders;
    var one := map[k := t];
    var mid := s.access.(grants := Follow(moves, s.access.grants));
    var more := moves[k := t].Keys;
    FollowOneMore(moves, k, t, s.access.grants);
    MovesOfOneMore(moves, k, t, s.access.grants);
    HoldersAfterMoves(s.access, moves, k, t);
    HoldersFromGrants(MoveAll(s, moves).access, mid, {k});
    assert one.Keys == {k} && more == moves.Keys + {k};
    assert s.access.roles - more == (s.access.roles - moves.Keys) - {k};
    SumOfThree(s.access.cutoffs, multiset(Holders(s.access, moves.Keys)), multiset(Holders(mid, {k})));
    assert s.plan.removed + more == (s.plan.removed + moves.Keys) + {k};
    var x, y, z := s.plan.moved, MovesOf(moves, s.access.grants), MovesOf(one, mid.grants);
    assert x + (y + z) == (x + y) + z;
  }

  lemma SumOfThree(x: multiset<UserId>, y: multiset<UserId>, z: multiset<UserId>)
    ensures x + (y + z) == (x + y) + z
  {}

  // The grant rows of one role, moved one by one; `moved` is whose they are.
  method MoveRows(grants: map<UserId, string>, k: string, t: string)
    returns (after: map<UserId, string>, moves: set<Move>, moved: set<UserId>)
    ensures after == Follow(map[k := t], grants)
    ensures moves == MovesOf(map[k := t], grants)
    ensures moved == set u | u in grants && grants[u] == k
  {
    hide Follow, MovesOf;
    var holders := set u | u in grants && grants[u] == k;
    var todo := holders;
    after, moves, moved := grants, {}, {};
    while todo != {}
      invariant todo <= holders && moved == holders - todo
      invariant after.Keys == grants.Keys
      invariant forall u | u in grants :: after[u] == if u in moved then t else grants[u]
      invariant moves == set u | u in moved :: Move(u, k, t)
      decreases todo
    {
      var u :| u in todo;
      after := after[u := t];
      moves := moves + {Move(u, k, t)};
      todo, moved := todo - {u}, moved + {u};
    }
    FollowOne(k, t, grants, after);
    MovesOfOne(k, t, grants, holders);
  }

  lemma MovesOfOne(k: string, t: string, grants: map<UserId, string>, holders: set<UserId>)
    requires holders == set u | u in grants && grants[u] == k
    ensures (set u | u in holders :: Move(u, k, t)) == MovesOf(map[k := t], grants)
  {}

  lemma FollowOne(k: string, t: string, grants: map<UserId, string>, after: map<UserId, string>)
    requires after.Keys == grants.Keys
    requires forall u | u in grants :: after[u] == if grants[u] == k then t else grants[u]
    ensures after == Follow(map[k := t], grants)
  {}

  // Moves everyone off one old role and deletes it.
  method MoveRole(db: ServiceAccess, k: string, t: string)
    modifies db`grants, db`roles, db`cutoffs, db`plan
    ensures db.View() == MoveAll(old(db.View()), map[k := t])
  {
    hide Follow, MovesOf;
    assert map[k := t].Keys == {k};
    var after, moves, moved := MoveRows(db.grants, k, t);
    assert moved == Holders(db.View().access, {k});
    db.grants, db.cutoffs := after, db.cutoffs + multiset(moved);
    db.roles := db.roles - {k};
    db.plan := db.plan.(moved := db.plan.moved + moves, removed := db.plan.removed + {k});
  }

  ghost predicate SupersededBefore(doc: Doc, i: int, j: int, k: string) {
    exists x, y :: SupersededAre(doc, x, y, k) && (x < i || (x == i && y < j))
  }

  ghost function MovesBefore(existing: set<string>, doc: Doc, i: int, j: int): map<string, string> {
    map k | k in existing && Superseded(doc, k) && SupersededBefore(doc, i, j, k) :: Successor(doc, k)
  }

  lemma FirstMention(doc: Doc, i: int, j: int, k: string)
    requires SupersededAre(doc, i, j, k) && !SupersededBefore(doc, i, j, k)
    ensures Successor(doc, k) == doc.roles[i].key
  {
    hide Keys;
    var r := FirstReplacer(doc, k, 0);
    var y :| SupersededAre(doc, r, y, k);
  }

  lemma NobodyMovesOnto(existing: set<string>, doc: Doc, i: int, j: int, k: string)
    requires Coherent(doc) && Superseded(doc, k)
    ensures k !in MovesBefore(existing, doc, i, j).Values
  {
    hide Keys, Successor, SupersededBefore;
    var x, y :| SupersededAre(doc, x, y, k);
    assert k in doc.roles[x].supersedes;
  }

  lemma OneMoreMention(doc: Doc, i: int, j: int, k: string, x: string)
    requires SupersededAre(doc, i, j, k)
    ensures SupersededBefore(doc, i, j + 1, x) <==> SupersededBefore(doc, i, j, x) || x == k
  {
    if SupersededBefore(doc, i, j + 1, x) && !SupersededBefore(doc, i, j, x) {
      var a, b :| SupersededAre(doc, a, b, x) && (a < i || (a == i && b < j + 1));
      assert a == i && b == j;
    }
  }

  lemma MovesBeforeMeans(existing: set<string>, doc: Doc, i: int, j: int)
    ensures var moves := MovesBefore(existing, doc, i, j);
            && (forall x :: x in moves <==> x in existing && SupersededBefore(doc, i, j, x))
            && forall x | x in moves :: Superseded(doc, x) && moves[x] == Successor(doc, x)
  {
    hide Successor;
  }

  lemma NextMove(existing: set<string>, doc: Doc, i: int, j: int, k: string)
    requires Coherent(doc) && SupersededAre(doc, i, j, k)
    ensures var moves := MovesBefore(existing, doc, i, j);
            && k !in moves.Values
            && MovesBefore(existing, doc, i, j + 1)
               == if k in existing && k !in moves then moves[k := doc.roles[i].key] else moves
  {
    hide Superseded, Successor, SupersededBefore, Coherent, MovesBefore;
    var moves, more := MovesBefore(existing, doc, i, j), MovesBefore(existing, doc, i, j + 1);
    assert Superseded(doc, k) by { Mentioned(doc, i, j, k); }
    NobodyMovesOnto(existing, doc, i, j, k);
    MovesBeforeMeans(existing, doc, i, j);
    MovesBeforeMeans(existing, doc, i, j + 1);
    if !SupersededBefore(doc, i, j, k) {
      FirstMention(doc, i, j, k);
    }
    forall x ensures SupersededBefore(doc, i, j + 1, x) <==> SupersededBefore(doc, i, j, x) || x == k {
      OneMoreMention(doc, i, j, k, x);
    }
  }

  lemma Mentioned(doc: Doc, i: int, j: int, k: string)
    requires SupersededAre(doc, i, j, k)
    ensures Superseded(doc, k)
  {}

  lemma NobodyLeft(grants: map<UserId, string>, moves: map<string, string>, k: string)
    requires k in moves && k !in moves.Values
    ensures forall u | u in Follow(moves, grants) :: Follow(moves, grants)[u] != k
  {
    forall u | u in grants && grants[u] in moves ensures moves[grants[u]] != k {
      assert moves[grants[u]] in moves.Values;
    }
  }

  lemma NothingToMove(a: Access, k: string, t: string)
    requires forall u | u in a.grants :: a.grants[u] != k
    ensures Follow(map[k := t], a.grants) == a.grants
    ensures Holders(a, {k}) == {} && MovesOf(map[k := t], a.grants) == {}
  {}

  // An old role already moved has no holders left.
  lemma MovedAlready(s: Import, moves: map<string, string>, k: string, t: string)
    requires k in moves && k !in moves.Values
    ensures MoveAll(MoveAll(s, moves), map[k := t]) == MoveAll(s, moves)
  {
    hide Follow, MovesOf, Holders;
    var after := MoveAll(s, moves);
    NobodyLeft(s.access.grants, moves, k);
    NothingToMove(after.access, k, t);
    var one := map[k := t];
    assert one.Keys == {k};
    assert after.access.roles - one.Keys == after.access.roles;
    assert after.plan.removed + one.Keys == after.plan.removed;
  }

  method ReplaceWith(db: ServiceAccess, doc: Doc, existing: set<string>, i: nat, ghost s: Import)
    requires Coherent(doc) && i < |doc.roles|
    requires db.View() == MoveAll(s, MovesBefore(existing, doc, i, 0))
    modifies db`grants, db`roles, db`cutoffs, db`plan
    ensures db.View() == MoveAll(s, MovesBefore(existing, doc, i + 1, 0))
  {
    hide MoveAll, Coherent, MovesBefore, SupersededBefore;
    var spec := doc.roles[i];
    for j := 0 to |spec.supersedes|
      invariant db.View() == MoveAll(s, MovesBefore(existing, doc, i, j))
    {
      var k := spec.supersedes[j];
      ghost var moves := MovesBefore(existing, doc, i, j);
      NextMove(existing, doc, i, j, k);
      if k in existing {
        if k in moves {
          MovedAlready(s, moves, k, spec.key);
        } else {
          MoveOneMore(s, moves, k, spec.key);
        }
        MoveRole(db, k, spec.key);
      }
    }
    RowDone(existing, doc, i);
  }

  method ReplaceRoles(db: ServiceAccess, doc: Doc, existing: set<string>)
    requires Coherent(doc)
    modifies db`grants, db`roles, db`cutoffs, db`plan
    ensures db.View() == MoveAll(old(db.View()), Moves(existing, doc))
  {
    hide MoveAll, Coherent, MovesBefore, Moves;
    ghost var s := db.View();
    NoMoves(s, existing, doc);
    for i := 0 to |doc.roles|
      invariant db.View() == MoveAll(s, MovesBefore(existing, doc, i, 0))
    {
      ReplaceWith(db, doc, existing, i, s);
    }
    AllMoves(existing, doc);
  }

  lemma NoMoves(s: Import, existing: set<string>, doc: Doc)
    ensures MoveAll(s, MovesBefore(existing, doc, 0, 0)) == s
  {
    var none := MovesBefore(existing, doc, 0, 0);
    assert forall k :: !SupersededBefore(doc, 0, 0, k);
    assert none == map[];
    assert Holders(s.access, none.Keys) == {} && Follow(none, s.access.grants) == s.access.grants;
    assert MovesOf(none, s.access.grants) == {};
    assert s.access.roles - none.Keys == s.access.roles;
  }

  lemma RowDone(existing: set<string>, doc: Doc, i: int)
    requires 0 <= i < |doc.roles|
    ensures MovesBefore(existing, doc, i, |doc.roles[i].supersedes|) == MovesBefore(existing, doc, i + 1, 0)
  {
    assert forall k :: SupersededBefore(doc, i, |doc.roles[i].supersedes|, k) <==> SupersededBefore(doc, i + 1, 0, k);
  }

  lemma AllMoves(existing: set<string>, doc: Doc)
    ensures MovesBefore(existing, doc, |doc.roles|, 0) == Moves(existing, doc)
  {
    assert forall k :: SupersededBefore(doc, |doc.roles|, 0, k) <==> Superseded(doc, k);
  }

  lemma ReplacedKeys(doc: Doc, replaced: set<string>)
    requires replaced == set i, j | 0 <= i < |doc.roles| && 0 <= j < |doc.roles[i].supersedes| ::
        doc.roles[i].supersedes[j]
    ensures forall k :: k in replaced <==> Superseded(doc, k)
  {
    forall k | Superseded(doc, k) ensures k in replaced {
      var i, j :| SupersededAre(doc, i, j, k);
      assert doc.roles[i].supersedes[j] == k;
    }
    forall k | k in replaced ensures Superseded(doc, k) {
      var i, j :| 0 <= i < |doc.roles| && 0 <= j < |doc.roles[i].supersedes| && doc.roles[i].supersedes[j] == k;
      assert SupersededAre(doc, i, j, k);
    }
  }

  method RemoveUnlisted(db: ServiceAccess, doc: Doc, existing: set<string>)
    requires doc.removeUnlisted
    modifies db`roles, db`plan
    ensures db.View() == Pruned(old(db.View()), existing, doc)
  {
    ghost var candidates := Unlisted(existing, doc);
    ghost var held := Held(db.View().access, candidates);
    var replaced := set i, j | 0 <= i < |doc.roles| && 0 <= j < |doc.roles[i].supersedes| :: doc.roles[i].supersedes[j];
    ReplacedKeys(doc, replaced);
    hide Superseded, Keys;
    var todo := existing;
    ghost var done: set<string> := {};
    var removed: set<string>, warnings: set<Warning> := {}, {};
    while todo != {}
      invariant done + todo == existing && done !! todo
      invariant removed == (candidates - held) * done
      invariant warnings == set k | k in held * done :: KeptRole(k)
      invariant db.roles == old(db.roles) - removed && db.plan == old(db.plan)
      decreases todo
    {
      var k :| k in todo;
      todo, done := todo - {k}, done + {k};
      if k in Keys(doc) || k in replaced {
        continue;
      }
      if k in db.grants.Values {
        warnings := warnings + {KeptRole(k)};
      } else {
        db.roles := db.roles - {k};
        removed := removed + {k};
      }
    }
    assert removed == candidates - held;
    assert held * done == held;
    assert warnings == set k | k in held :: KeptRole(k);
    assert removed == candidates - Held(old(db.View()).access, candidates);
    db.plan := db.plan.(removed := db.plan.removed + removed, warnings := db.plan.warnings + warnings);
    assert db.plan.warnings == Pruned(old(db.View()), existing, doc).plan.warnings;
  }

  method Apply(db: ServiceAccess, doc: Doc, slug: string, override: Option<string>, roster: seq<Person>)
    requires Validated(doc)
    modifies db
    ensures db.View() == Applied(old(db.View()).access, doc, slug, override, roster)
  {
    ValidatedIsCoherent(doc);
    hide Validated, Declared, MoveAll, Pruned, Assigned;
    db.plan := EMPTY_PLAN;
    var existing := db.roles.Keys;
    DeclareRoles(db, doc);
    ReplaceRoles(db, doc, existing);
    if doc.removeUnlisted {
      RemoveUnlisted(db, doc, existing);
    }
    if doc.assign.Some? {
      var a := doc.assign.value;
      db.AssignRoles(a, FileScope(slug, override, a), roster);
    }
  }
}
