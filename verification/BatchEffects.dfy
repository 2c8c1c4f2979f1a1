/** What a batch of role changes leaves its target with: what it asks for when each service comes up
    once, and exactly what when a service comes up again (backend/app/routers/platform.py:880-943). */
module BatchEffects {
  import opened Options
  import opened Delegation
  import opened GrantEffects

  // A row of the target's for a role of this service.
  predicate RowOn(p: Desk, target: UserId, service: ServiceId, h: Holding) {
    h.user == target && h.role in p.roles && p.roles[h.role].service == service
  }

  // Nothing is marked that is not in the table.
  predicate MarksRows(d: Draft) {
    d.deleted <= d.desk.grants.Keys
  }

  // ---------------------------------------------------------------- one item

  lemma NothingMarked(p: Desk)
    ensures Flushed(Draft(p, {})) == p && MarksRows(Draft(p, {}))
  {
    assert p.grants - {} == p.grants;
  }

  lemma RowsOfMore(target: UserId, roles: seq<RoleId>)
    requires roles != []
    ensures RowsOf(target, roles)
         == RowsOf(target, roles[..|roles| - 1]) + {Holding(target, roles[|roles| - 1])}
  {
    assert roles == roles[..|roles| - 1] + [roles[|roles| - 1]];
  }

  // One role of the item: held already, or added with everything marked flushed.
  lemma RoleGives(d: Draft, e: Draft, actor: UserId, target: UserId, role: RoleId, front: set<Holding>)
    requires MarksRows(e) && Adds(Flushed(d), Flushed(e), front - d.desk.grants.Keys, None)
    requires Holding(target, role) !in d.desk.grants
    ensures var f := Draft(Add(Flushed(e), actor, target, role, None), {});
            && MarksRows(f)
            && Adds(Flushed(d), Flushed(f), front + {Holding(target, role)} - d.desk.grants.Keys, None)
  {
    hide Adds, Add, Flushed, MarksRows;
    var have := d.desk.grants.Keys;
    AddGives(Flushed(e), actor, target, role);
    NothingMarked(Add(Flushed(e), actor, target, role, None));
    AddsJoin(Flushed(d), Flushed(e), Add(Flushed(e), actor, target, role, None), front - have, {Holding(target, role)});
    assert front + {Holding(target, role)} - have == front - have + {Holding(target, role)};
  }

  lemma {:induction false} RolesGive(d: Draft, actor: UserId, target: UserId, roles: seq<RoleId>)
    requires MarksRows(d)
    ensures var have := d.desk.grants.Keys;
            var e := WriteRoles(d, actor, target, roles, have);
            && MarksRows(e)
            && Adds(Flushed(d), Flushed(e), RowsOf(target, roles) - have, None)
            && (if RowsOf(target, roles) <= have then e == d else e.deleted == {})
  {
    var have := d.desk.grants.Keys;
    if roles == [] {
      assert RowsOf(target, roles) - have == {};
      hide Adds, Flushed, MarksRows;
      AddsNothing(Flushed(d));
    } else {
      hide Adds, Add, Flushed, MarksRows, RowsOf;
      var (front, last) := (roles[..|roles| - 1], roles[|roles| - 1]);
      RolesGive(d, actor, target, front);
      RowsOfMore(target, roles);
      if Holding(target, last) in have {
        assert RowsOf(target, roles) - have == RowsOf(target, front) - have;
      } else {
        RoleGives(d, WriteRoles(d, actor, target, front, have), actor, target, last, RowsOf(target, front));
      }
    }
  }

  // The rows the target has on the item's service after it: with `replace` the listed ones, else those
  // from before as well; a listed row that is marked already is neither kept nor added. No other row
  // changes, kept rows keep their expiry, and added ones have none.
  ghost predicate ItemDone(d: Draft, e: Draft, target: UserId, item: Item) {
    var (p, q) := (Flushed(d), Flushed(e));
    && MarksRows(e) && q.roles == p.roles
    && (forall h | RowOn(p, target, item.service, h) ::
          h in q.grants <==> || (h in p.grants && (item.replace_ ==> h.role in item.roles))
                             || (h.role in item.roles && h !in d.deleted))
    && (forall h | !RowOn(p, target, item.service, h) :: h in q.grants <==> h in p.grants)
    && (forall h | h in q.grants :: q.grants[h] == if h in p.grants then p.grants[h] else None)
  }

  // Marking takes the target's rows of the service that the item does not list, if it replaces.
  lemma MarkTakes(d: Draft, target: UserId, item: Item)
    requires MarksRows(d)
    ensures var (m, p, q) := (Mark(d, target, item), Flushed(d), Flushed(Mark(d, target, item)));
            && MarksRows(m) && m.desk == d.desk && q.roles == p.roles
            && (forall h :: h in q.grants <==>
                  h in p.grants && !(item.replace_ && RowOn(p, target, item.service, h) && h.role !in item.roles))
            && (forall h | h in q.grants :: q.grants[h] == p.grants[h])
  {}

  lemma ItemGives(d: Draft, actor: UserId, target: UserId, item: Item)
    requires MarksRows(d)
    requires forall r | r in item.roles :: r in d.desk.roles && d.desk.roles[r].service == item.service
    ensures ItemDone(d, ApplyItem(d, actor, target, item), target, item)
    ensures var e := ApplyItem(d, actor, target, item);
            if RowsOf(target, item.roles) <= d.desk.grants.Keys then e == Mark(d, target, item) else e.deleted == {}
  {
    MarkTakes(d, target, item);
    RolesGive(Mark(d, target, item), actor, target, item.roles);
    RowsBefore(d);
    hide WriteRoles, Mark, Flushed;
  }

  lemma RowsBefore(d: Draft)
    requires MarksRows(d)
    ensures forall h :: h in d.desk.grants <==> h in Flushed(d).grants || h in d.deleted
    ensures forall h :: h in d.deleted ==> h !in Flushed(d).grants
    ensures Flushed(d).roles == d.desk.roles
  {}

  // ---------------------------------------------------------------- the whole batch

  // What the source asks of every item before it writes anything.
  ghost predicate Fitting(p: Desk, items: seq<Item>) {
    forall i, r | 0 <= i < |items| && r in items[i].roles :: r in p.roles && p.roles[r].service == items[i].service
  }

  lemma AllowedFits(p: Desk, actor: UserId, target: UserId, items: seq<Item>)
    requires BatchAllowed(p, actor, target, items)
    ensures Fitting(p, items)
  {
    hide Ceiling;
    forall i, r | 0 <= i < |items| && r in items[i].roles
      ensures r in p.roles && p.roles[r].service == items[i].service
    {
      assert ItemAllowed(p, actor, target, items[i]);
      var k :| 0 <= k < |items[i].roles| && items[i].roles[k] == r;
    }
  }

  // The batch before item `n`.
  function Before(p: Desk, actor: UserId, target: UserId, items: seq<Item>, n: nat): Draft
    requires n <= |items|
  {
    ApplyItems(p, actor, target, items[..n])
  }

  lemma BeforeNext(p: Desk, actor: UserId, target: UserId, items: seq<Item>, n: nat)
    requires n < |items|
    ensures Before(p, actor, target, items, n + 1)
         == ApplyItem(Before(p, actor, target, items, n), actor, target, items[n])
  {
    assert items[..n + 1][..n] == items[..n];
  }

  lemma {:induction false} RowsSound(p: Desk, actor: UserId, target: UserId, items: seq<Item>, n: nat)
    requires n <= |items| && Fitting(p, items)
    ensures var d := Before(p, actor, target, items, n); MarksRows(d) && d.desk.roles == p.roles
  {
    hide MarksRows;
    if n == 0 {
      NothingMarked(p);
    } else {
      RowsSound(p, actor, target, items, n - 1);
      BeforeNext(p, actor, target, items, n - 1);
      ItemGives(Before(p, actor, target, items, n - 1), actor, target, items[n - 1]);
    }
  }

  lemma ItemAt(p: Desk, actor: UserId, target: UserId, items: seq<Item>, n: nat)
    requires n < |items| && Fitting(p, items)
    ensures ItemDone(Before(p, actor, target, items, n), Before(p, actor, target, items, n + 1), target, items[n])
    ensures Flushed(Before(p, actor, target, items, n)).roles == p.roles
  {
    RowsSound(p, actor, target, items, n);
    BeforeNext(p, actor, target, items, n);
    ItemGives(Before(p, actor, target, items, n), actor, target, items[n]);
  }

  // Items from `n` to `m` are of other services: they leave the target's rows on `service` alone.
  lemma {:induction false} OthersLeave(p: Desk, actor: UserId, target: UserId, items: seq<Item>, n: nat, m: nat,
      h: Holding)
    requires n <= m <= |items| && Fitting(p, items)
    requires forall j | n <= j < m :: !RowOn(p, target, items[j].service, h)
    ensures h in Flushed(Before(p, actor, target, items, m)).grants
            <==> h in Flushed(Before(p, actor, target, items, n)).grants
    decreases m
  {
    hide Flushed, Before, Fitting, MarksRows;
    if n < m {
      OthersLeave(p, actor, target, items, n, m - 1, h);
      ItemAt(p, actor, target, items, m - 1);
    }
  }

  // What the last item on a service decides: the rows it lists, except those an earlier item marked and
  // nothing has flushed since, and without `replace` the rows already there.
  lemma LastItemDecides(p: Desk, actor: UserId, target: UserId, items: seq<Item>, i: nat, h: Holding)
    requires i < |items| && BatchAllowed(p, actor, target, items)
    requires RowOn(p, target, items[i].service, h)
    requires forall j | i < j < |items| :: items[j].service != items[i].service
    ensures h in DoBatch(p, actor, target, items).grants
            <==> || (h.role in items[i].roles && h !in Before(p, actor, target, items, i).deleted)
                 || (!items[i].replace_ && h in Flushed(Before(p, actor, target, items, i)).grants)
  {
    AllowedFits(p, actor, target, items);
    hide Fitting, BatchAllowed;
    ItemAt(p, actor, target, items, i);
    OthersLeave(p, actor, target, items, i + 1, |items|, h);
    assert items[..|items|] == items;
    assert DoBatch(p, actor, target, items) == Flushed(Before(p, actor, target, items, |items|));
    RowsSound(p, actor, target, items, i);
    RowsBefore(Before(p, actor, target, items, i));
    hide Before, Flushed, MarksRows;
  }

  // Item `k` adds no row, so nothing is flushed.
  ghost predicate Quiet(p: Desk, actor: UserId, target: UserId, items: seq<Item>, k: nat)
    requires k < |items|
  {
    RowsOf(target, items[k].roles) <= Before(p, actor, target, items, k).desk.grants.Keys
  }

  // Item `j` replaces the service of a row it does not list, while that row is in the table.
  ghost predicate Drops(p: Desk, actor: UserId, target: UserId, items: seq<Item>, j: nat, h: Holding)
    requires j < |items|
  {
    && items[j].replace_ && RowOn(p, target, items[j].service, h) && h.role !in items[j].roles
    && h in Before(p, actor, target, items, j).desk.grants
  }

  // A row is marked at item `n` exactly when an earlier item drops it and none from that one on added a row.
  lemma {:induction false} MarkedIff(p: Desk, actor: UserId, target: UserId, items: seq<Item>, n: nat, h: Holding)
    requires n <= |items| && Fitting(p, items)
    ensures h in Before(p, actor, target, items, n).deleted
            <==> exists j: nat :: j < n && Drops(p, actor, target, items, j, h)
                                  && forall k: nat | j <= k < n :: Quiet(p, actor, target, items, k)
  {
    hide Before, Fitting, Flushed, Quiet, Drops;
    if n == 0 {
      StartsEmpty(p, actor, target, items);
    } else {
      MarkedIff(p, actor, target, items, n - 1, h);
      MarkedOneMore(p, actor, target, items, n - 1, h);
    }
  }

  lemma StartsEmpty(p: Desk, actor: UserId, target: UserId, items: seq<Item>)
    ensures Before(p, actor, target, items, 0) == Draft(p, {})
  {}

  lemma MarkedOneMore(p: Desk, actor: UserId, target: UserId, items: seq<Item>, n: nat, h: Holding)
    requires n < |items| && Fitting(p, items)
    ensures h in Before(p, actor, target, items, n + 1).deleted
            <==> && Quiet(p, actor, target, items, n)
                 && (h in Before(p, actor, target, items, n).deleted || Drops(p, actor, target, items, n, h))
  {
    var d := Before(p, actor, target, items, n);
    RowsSound(p, actor, target, items, n);
    BeforeNext(p, actor, target, items, n);
    ItemGives(d, actor, target, items[n]);
    hide Before, Fitting, ItemDone, MarksRows, RowsOf, ApplyItem;
    assert h in Unwanted(d.desk, target, items[n]) <==>
        h in d.desk.grants && RowOn(p, target, items[n].service, h) && h.role !in items[n].roles;
  }

  // When a batch loses a role it asks for: the last item on a service lists it, and exactly when an
  // earlier item dropped the target's row of it and none from that one on added a row.
  lemma ListedRoleIsLostIff(p: Desk, actor: UserId, target: UserId, items: seq<Item>, i: nat, h: Holding)
    requires i < |items| && BatchAllowed(p, actor, target, items)
    requires RowOn(p, target, items[i].service, h) && h.role in items[i].roles
    requires forall j | i < j < |items| :: items[j].service != items[i].service
    ensures h !in DoBatch(p, actor, target, items).grants
            <==> exists j: nat :: j < i && Drops(p, actor, target, items, j, h)
                                  && forall k: nat | j <= k < i :: Quiet(p, actor, target, items, k)
  {
    AllowedFits(p, actor, target, items);
    hide BatchAllowed, Fitting, Before, DoBatch, Flushed, Drops, Quiet;
    MarkedIff(p, actor, target, items, i, h);
    LastItemDecides(p, actor, target, items, i, h);
    RowsSound(p, actor, target, items, i);
    RowsBefore(Before(p, actor, target, items, i));
  }

  // ---------------------------------------------------------------- each service once

  ghost predicate ServicesOnce(items: seq<Item>) {
    forall i, j | 0 <= i < j < |items| :: items[i].service != items[j].service
  }

  lemma NotMarked(p: Desk, actor: UserId, target: UserId, items: seq<Item>, i: nat, h: Holding)
    requires i < |items| && Fitting(p, items) && ServicesOnce(items)
    requires RowOn(p, target, items[i].service, h)
    ensures h !in Before(p, actor, target, items, i).deleted
    ensures h in Flushed(Before(p, actor, target, items, i)).grants <==> h in p.grants
  {
    MarkedIff(p, actor, target, items, i, h);
    OthersLeave(p, actor, target, items, 0, i, h);
    StartsEmpty(p, actor, target, items);
    NothingMarked(p);
  }

  lemma {:induction false} ExpiriesStay(p: Desk, actor: UserId, target: UserId, items: seq<Item>, n: nat)
    requires n <= |items| && Fitting(p, items) && ServicesOnce(items)
    ensures var q := Flushed(Before(p, actor, target, items, n));
            forall h | h in q.grants :: q.grants[h] == if h in p.grants then p.grants[h] else None
  {
    hide Before, Fitting, Flushed, MarksRows, ServicesOnce;
    if n == 0 {
      StartsEmpty(p, actor, target, items);
      NothingMarked(p);
    } else {
      ExpiriesStay(p, actor, target, items, n - 1);
      ItemAt(p, actor, target, items, n - 1);
      var q := Flushed(Before(p, actor, target, items, n));
      forall h | h in q.grants
        ensures q.grants[h] == if h in p.grants then p.grants[h] else None
      {
        if RowOn(p, target, items[n - 1].service, h) {
          NotMarked(p, actor, target, items, n - 1, h);
        }
      }
    }
  }

  // An allowed batch that names each service once does what it says: on a replaced service the target
  // holds exactly the listed roles, on another named one those as well as the ones from before; what
  // was held keeps its expiry, what is new has none, and nobody else's grants and no other service's
  // change. A batch that is not allowed changes nothing.
  lemma BatchDoesWhatItSays(p: Desk, actor: UserId, target: UserId, items: seq<Item>)
    requires ServicesOnce(items)
    ensures var q := DoBatch(p, actor, target, items);
            if BatchAllowed(p, actor, target, items) then
              && (forall i, h | 0 <= i < |items| && RowOn(p, target, items[i].service, h) ::
                    h in q.grants <==> h.role in items[i].roles || (!items[i].replace_ && h in p.grants))
              && (forall h | forall i | 0 <= i < |items| :: !RowOn(p, target, items[i].service, h) ::
                    h in q.grants <==> h in p.grants)
              && (forall h | h in q.grants :: q.grants[h] == if h in p.grants then p.grants[h] else None)
            else q == p
  {
    hide Before, Flushed, MarksRows, BatchAllowed, Fitting;
    if BatchAllowed(p, actor, target, items) {
      AllowedFits(p, actor, target, items);
      var q := DoBatch(p, actor, target, items);
      assert q == Flushed(Before(p, actor, target, items, |items|)) by {
        AllItems(p, actor, target, items);
      }
      ExpiriesStay(p, actor, target, items, |items|);
      forall i, h | 0 <= i < |items| && RowOn(p, target, items[i].service, h)
        ensures h in q.grants <==> h.role in items[i].roles || (!items[i].replace_ && h in p.grants)
      {
        NotMarked(p, actor, target, items, i, h);
        LastItemDecides(p, actor, target, items, i, h);
      }
      forall h | forall i | 0 <= i < |items| :: !RowOn(p, target, items[i].service, h)
        ensures h in q.grants <==> h in p.grants
      {
        OthersLeave(p, actor, target, items, 0, |items|, h);
        StartsEmpty(p, actor, target, items);
        NothingMarked(p);
      }
    }
  }

  lemma AllItems(p: Desk, actor: UserId, target: UserId, items: seq<Item>)
    requires BatchAllowed(p, actor, target, items)
    ensures DoBatch(p, actor, target, items) == Flushed(Before(p, actor, target, items, |items|))
  {
    assert items[..|items|] == items;
  }

  // A service named twice: the second item reads a row the first one marked, keeps it as held, and the
  // batch ends with it deleted. The person had both roles and is left with none.
  const TWICE := Desk(0, {1}, {}, map[1 := Role(1, {}), 2 := Role(1, {})],
    map[Holding(7, 1) := None, Holding(7, 2) := None], {})
  const TWICE_ITEMS := [Item(1, [1], true, true), Item(1, [2], true, true)]

  lemma ServiceTwiceLosesAccess()
    ensures BatchAllowed(TWICE, 1, 7, TWICE_ITEMS)
    ensures DoBatch(TWICE, 1, 7, TWICE_ITEMS).grants == map[]
  {
    var (first, second) := (TWICE_ITEMS[0], TWICE_ITEMS[1]);
    var rows := {Holding(7, 1), Holding(7, 2)};
    assert Unwanted(TWICE, 7, first) == {Holding(7, 2)} && Unwanted(TWICE, 7, second) == {Holding(7, 1)};
    OneListed(Mark(Draft(TWICE, {}), 7, first), 1, 7, 1);
    OneListed(Mark(Draft(TWICE, {Holding(7, 2)}), 7, second), 1, 7, 2);
    assert ApplyItem(Draft(TWICE, {}), 1, 7, first) == Draft(TWICE, {Holding(7, 2)});
    assert ApplyItem(Draft(TWICE, {Holding(7, 2)}), 1, 7, second) == Draft(TWICE, rows);
    assert TWICE_ITEMS[..1] == [first] && [first][..0] == [];
    assert ApplyItems(TWICE, 1, 7, [first]) == ApplyItem(ApplyItems(TWICE, 1, 7, []), 1, 7, first);
    assert Flushed(Draft(TWICE, rows)).grants == map[];
  }

  lemma OneListed(d: Draft, actor: UserId, target: UserId, role: RoleId)
    requires Holding(target, role) in d.desk.grants
    ensures WriteRoles(d, actor, target, [role], d.desk.grants.Keys) == d
  {
    assert [role][..0] == [];
  }
}
