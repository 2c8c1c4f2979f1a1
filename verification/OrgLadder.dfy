/** A directory over which the in-memory client and the capped endpoint disagree
    (backend/app/routers/agent.py:358-407, servicedesk/app/org_chart.py:79-90, 213-230). */
module OrgLadder {
  import opened Options
  import opened OrgChart

  const LADDER: nat := 22

  function Rung(i: nat): (s: Sub)
    requires i < LADDER
    ensures |s| == 6 && s[..5] == "user:" && s[5] == (i + 'a' as int) as char
  {
    "user:" + [(i + 'a' as int) as char]
  }

  function RungUser(i: nat): UserRow
    requires i < LADDER
  {
    UserRow(Rung(i), i)
  }

  // Only the last has approval authority.
  function RungEmployee(i: nat): EmployeeRow {
    EmployeeRow(None, i == LADDER - 1, if i < LADDER - 1 then Some(i + 1) else None)
  }

  // Twenty-two people, each managed by the next.
  function LadderTables(): Tables {
    Tables(map i: nat | i < LADDER :: RungUser(i), map i: nat | i < LADDER :: RungEmployee(i))
  }

  function RungOf(s: Sub): Option<UserId> {
    if |s| == 6 && s[..5] == "user:" && 'a' <= s[5] && s[5] as int - 'a' as int < LADDER
    then Some(s[5] as int - 'a' as int)
    else None
  }

  function RungNode(i: nat): PersonNode
    requires i < LADDER
  {
    PersonNode(Rung(i), None, i == LADDER - 1, if i < LADDER - 1 then Some(Rung(i + 1)) else None)
  }

  lemma RungsDiffer(i: nat, j: nat)
    requires i < j < LADDER
    ensures Rung(i) != Rung(j)
  {
    assert Rung(i)[5] != Rung(j)[5];
  }

  lemma LadderIsCanonical()
    ensures Canonical(LadderTables(), RungOf)
  {
    hide Rung;
    var t := LadderTables();
    forall u | u in t.users ensures t.users[u].subject != "" && RungOf(t.users[u].subject) == Some(u) {
      assert t.users[u] == RungUser(u);
    }
    forall u, v | u in t.users && v in t.users && t.users[u].employee == t.users[v].employee ensures u == v {
      assert t.users[u] == RungUser(u) && t.users[v] == RungUser(v);
    }
  }

  lemma UserOfRung(i: nat)
    requires i < LADDER
    ensures UserOf(LadderTables(), i) == Some(i)
  {
    hide Rung;
    var t := LadderTables();
    assert t.users[i] == RungUser(i);
    assert forall u | u in t.users :: t.users[u] == RungUser(u);
    hide LadderTables;
  }

  lemma NodeOfRung(i: nat)
    requires i < LADDER
    ensures i in LadderTables().users && LadderTables().users[i] == RungUser(i) && i in LadderTables().employees
    ensures NodeOf(LadderTables(), i) == RungNode(i)
  {
    hide Rung, UserOf;
    if i < LADDER - 1 {
      UserOfRung(i + 1);
    }
  }

  lemma RungEntry(i: nat)
    requires i < LADDER && Canonical(LadderTables(), RungOf)
    ensures Rung(i) in Directory(LadderTables(), RungOf) && Directory(LadderTables(), RungOf)[Rung(i)] == RungNode(i)
  {
    NodeOfRung(i);
    hide LadderTables, Directory, Canonical, Rung;
    DirectoryEntry(LadderTables(), RungOf, i);
  }

  ghost function Ladder(i: nat, seen: set<Sub>): seq<PersonNode>
    requires i < LADDER && Canonical(LadderTables(), RungOf)
  {
    ChainFrom(Directory(LadderTables(), RungOf), Some(Rung(i)), seen)
  }

  lemma LadderStep(i: nat, seen: set<Sub>)
    requires i < LADDER && Canonical(LadderTables(), RungOf) && Rung(i) !in seen
    ensures Ladder(i, seen) == [RungNode(i)] + if i + 1 < LADDER then Ladder(i + 1, seen + {Rung(i)}) else []
  {
    hide LadderTables, Directory, Canonical, ChainFrom;
    RungEntry(i);
    ChainStep(Directory(LadderTables(), RungOf), Rung(i), seen);
    ChainOver(Directory(LadderTables(), RungOf), seen + {Rung(i)});
  }

  lemma {:induction false} LadderChain(i: nat, seen: set<Sub>)
    requires i < LADDER && Canonical(LadderTables(), RungOf)
    requires forall j | i <= j < LADDER :: Rung(j) !in seen
    ensures |Ladder(i, seen)| == LADDER - i
    ensures forall k | 0 <= k < LADDER - i :: Ladder(i, seen)[k] == RungNode(i + k)
    decreases LADDER - i
  {
    hide LadderTables, Canonical, Ladder, RungNode, Rung;
    LadderStep(i, seen);
    if i + 1 < LADDER {
      forall j | i + 1 <= j < LADDER ensures Rung(j) !in seen + {Rung(i)} {
        RungsDiffer(i, j);
      }
      LadderChain(i + 1, seen + {Rung(i)});
    }
  }

  // Whatever list has the ladder's people in it, only the whole of it has an approver.
  lemma OnlyTheLastQualifies(chain: seq<PersonNode>)
    requires |chain| == LADDER && forall k | 0 <= k < LADDER :: chain[k] == RungNode(k)
    ensures FirstOther(chain, Rung(0)) == Some(RungNode(LADDER - 1))
    ensures FirstOther(Take(chain, CHAIN_CAP), Rung(0)).None?
  {
    RungsDiffer(0, LADDER - 1);
    hide Rung, FirstOther;
    FirstOtherMeans(chain, Rung(0));
    FirstOtherMeans(Take(chain, CHAIN_CAP), Rung(0));
    assert Qualifies(chain[LADDER - 1]);
    assert forall k | 0 <= k < LADDER - 1 :: !Qualifies(chain[k]);
  }

  // Over these tables the in-memory client finds the top of the ladder, and the endpoint nobody.
  lemma ClientsCanDiffer()
    ensures var t := LadderTables();
            && Canonical(t, RungOf)
            && FirstOther(ChainFrom(Directory(t, RungOf), Some(Rung(0)), {}), Rung(0)) == Some(RungNode(LADDER - 1))
            && FirstOther(OrgChainFrom(t, RungOf, Some(Rung(0)), {}, CHAIN_CAP), Rung(0)).None?
  {
    hide ChainFrom, OrgChainFrom, Directory, LadderTables, Canonical, Rung, RungOf, FirstOther;
    LadderIsCanonical();
    NodeOfRung(0);
    LadderChain(0, {});
    OrgChainIsAPrefix(LadderTables(), RungOf, Some(Rung(0)), {}, CHAIN_CAP);
    OnlyTheLastQualifies(Ladder(0, {}));
  }
}
