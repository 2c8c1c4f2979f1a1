/** What a draft says of each role, and what its notes say (backend/app/access_contract.py:156-209). */
module DraftContents {
  import opened Options
  import opened RoleFile
  import opened DraftMerge

  // ---------------------------------------------------------------- permissions in and out

  // Both lists keep the order: they split list by list and one by one.
  lemma {:induction false} OnlyJoins(a: seq<string>, b: seq<string>, catalog: map<string, string>)
    ensures Only(a + b, catalog) == Only(a, catalog) + Only(b, catalog)
  {
    if a == [] {
      assert a + b == b;
    } else {
      assert (a + b)[0] == a[0] && (a + b)[1..] == a[1..] + b;
      OnlyJoins(a[1..], b, catalog);
    }
  }

  lemma {:induction false} OutsideJoins(a: seq<string>, b: seq<string>, catalog: map<string, string>)
    ensures Outside(a + b, catalog) == Outside(a, catalog) + Outside(b, catalog)
  {
    if a == [] {
      assert a + b == b;
    } else {
      assert (a + b)[0] == a[0] && (a + b)[1..] == a[1..] + b;
      OutsideJoins(a[1..], b, catalog);
    }
  }

  lemma OneSplits(x: string, catalog: map<string, string>)
    ensures Only([x], catalog) == if x in catalog then [x] else []
    ensures Outside([x], catalog) == if x in catalog then [] else [x]
  {
    assert [x][1..] == [];
  }

  lemma SplitMeans(ps: seq<string>, catalog: map<string, string>)
    ensures Only(ps, catalog) == [] <==> forall p | p in ps :: p !in catalog
    ensures Outside(ps, catalog) == [] <==> forall p | p in ps :: p in catalog
  {
    hide Only, Outside;
    assert Only(ps, catalog) != [] ==> Only(ps, catalog)[0] in Only(ps, catalog);
    assert Outside(ps, catalog) != [] ==> Outside(ps, catalog)[0] in Outside(ps, catalog);
  }

  // ---------------------------------------------------------------- the roles

  // `x` is called and described as MM OS already does, and is the default if it was there.
  ghost predicate SameIdentity(x: RoleSpec, r: Existing) {
    x.key == r.key && x.name == r.name && x.description == r.description && x.isDefault == r.isDefault
  }

  // The role of a suggestion: its permissions, under the identity MM OS has for the key, else a new role
  // of the suggested name.
  ghost predicate FromSuggestion(x: RoleSpec, existing: seq<Existing>, s: Suggested) {
    && x.key == s.key && x.permissions == s.permissions
    && (forall m | 0 <= m < |existing| && existing[m].key == s.key :: SameIdentity(x, existing[m]))
    && ((forall m | 0 <= m < |existing| :: existing[m].key != s.key) ==>
          x.name == s.name && x.description == None && !x.isDefault)
  }

  lemma SuggestionMeans(existing: seq<Existing>, s: Suggested)
    requires DistinctExisting(existing)
    ensures FromSuggestion(SuggestedSpec(existing, s), existing, s)
  {
    hide Lookup;
    var found := Lookup(existing, s.key);
    if found.Some? {
      var i :| 0 <= i < |existing| && existing[i] == found.value;
      assert forall m | 0 <= m < |existing| && existing[m].key == s.key :: m == i;
    }
  }

  // Every role of the draft is a suggested one, or one of MM OS that nobody suggests, with what the
  // catalog still has of its permissions; none replaces another.
  lemma DraftSaysOfEach(existing: seq<Existing>, suggested: seq<Suggested>, catalog: map<string, string>, x: RoleSpec)
    requires DistinctExisting(existing) && x in Draft(existing, suggested, catalog)
    ensures x.supersedes == []
    ensures || (exists i :: 0 <= i < |suggested| && FromSuggestion(x, existing, suggested[i]))
            || (exists m :: && 0 <= m < |existing| && !IsSuggested(suggested, existing[m].key)
                            && SameIdentity(x, existing[m]) && x.permissions == Only(existing[m].permissions, catalog))
  {
    hide IsSuggested, DraftUpTo, DistinctExisting, FromSuggestion, Only, Lookup;
    DraftSources(existing, suggested, catalog, |existing|);
    if i :| 0 <= i < |suggested| && x == SuggestedSpec(existing, suggested[i]) {
      SuggestionMeans(existing, suggested[i]);
    }
  }

  // ---------------------------------------------------------------- the notes

  // The note of a kept role says that the catalog has none of its permissions, or that it has some and
  // which it has not, or that it has them all.
  ghost predicate Tells(n: Note, r: Existing, catalog: map<string, string>) {
    n.key == r.key
    && match n
       case NothingLeft(_) => forall p | p in r.permissions :: p !in catalog
       case Loses(_, dropped) =>
         && (exists p :: p in r.permissions && p in catalog) && (exists p :: p in r.permissions && p !in catalog)
         && dropped == Outside(r.permissions, catalog)
       case KeptAsIs(_) => r.permissions != [] && forall p | p in r.permissions :: p in catalog
  }

  lemma NoteTells(r: Existing, catalog: map<string, string>)
    ensures Tells(NoteFor(r, catalog), r, catalog)
  {
    hide Only, Outside;
    SplitMeans(r.permissions, catalog);
    assert r.permissions != [] ==> r.permissions[0] in r.permissions;
  }

  // The kept roles get one note each, in their order.
  function KeptBefore(existing: seq<Existing>, suggested: seq<Suggested>, n: nat): seq<Existing>
    requires n <= |existing|
  {
    if n == 0 then []
    else KeptBefore(existing, suggested, n - 1)
         + (if IsSuggested(suggested, existing[n - 1].key) then [] else [existing[n - 1]])
  }

  lemma {:induction false} NotesTell(existing: seq<Existing>, suggested: seq<Suggested>, catalog: map<string, string>,
      n: nat)
    requires n <= |existing|
    ensures var (notes, kept) := (NotesUpTo(existing, suggested, catalog, n), KeptBefore(existing, suggested, n));
            |notes| == |kept| && forall i | 0 <= i < |notes| :: Tells(notes[i], kept[i], catalog)
  {
    hide IsSuggested, NoteFor, Tells;
    if n > 0 {
      NotesTell(existing, suggested, catalog, n - 1);
      NoteTells(existing[n - 1], catalog);
    }
  }
}
