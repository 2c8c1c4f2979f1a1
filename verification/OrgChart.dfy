/** Manager chains and the computed approver (servicedesk/app/org_chart.py:28-90, 213-230), and the
    chain endpoint the production client calls (backend/app/routers/agent.py:335-407). */
module OrgChart {
  import opened Options

  type Sub = string
  type UserId = nat
  type EmployeeId = nat

  datatype PersonNode = PersonNode(sub: Sub, approvalLevel: Option<string>, isApprover: bool, manager: Option<Sub>)

  predicate Qualifies(n: PersonNode) {
    n.isApprover || (n.approvalLevel.Some? && n.approvalLevel.value != "" && n.approvalLevel.value != "Operational")
  }

  // ---------------------------------------------------------------- the in-memory client

  ghost predicate Keyed(people: map<Sub, PersonNode>) {
    forall s | s in people :: people[s].sub == s
  }

  // The walk from `current`, given who has been seen.
  function ChainFrom(people: map<Sub, PersonNode>, current: Option<Sub>, seen: set<Sub>): seq<PersonNode>
    decreases |people.Keys - seen|
  {
    if current.None? || current.value == "" || current.value in seen || current.value !in people then []
    else
      assert people.Keys - (seen + {current.value}) == (people.Keys - seen) - {current.value};
      [people[current.value]] + ChainFrom(people, people[current.value].manager, seen + {current.value})
  }

  lemma ChainStep(people: map<Sub, PersonNode>, sub: Sub, seen: set<Sub>)
    requires sub != "" && sub !in seen && sub in people
    ensures ChainFrom(people, Some(sub), seen) == [people[sub]] + ChainFrom(people, people[sub].manager, seen + {sub})
  {}

  lemma ChainOver(people: map<Sub, PersonNode>, seen: set<Sub>)
    ensures ChainFrom(people, None, seen) == []
  {}

  class SeedOrgChartClient {
    const people: map<Sub, PersonNode>

    constructor (people: map<Sub, PersonNode>)
      ensures this.people == people
    {
      this.people := people;
    }

    method ChainFor(sub: Sub) returns (chain: seq<PersonNode>)
      ensures chain == ChainFrom(people, Some(sub), {})
    {
      chain := [];
      var seen: set<Sub> := {};
      var current := Some(sub);
      while current.Some? && current.value != "" && current.value !in seen
        invariant chain + ChainFrom(people, current, seen) == ChainFrom(people, Some(sub), {})
        decreases people.Keys - seen
      {
        seen := seen + {current.value};
        if current.value !in people {
          break;
        }
        var node := people[current.value];
        chain := chain + [node];
        current := node.manager;
      }
    }
  }

  // ---------------------------------------------------------------- what a chain is

  ghost predicate NoRepeats(chain: seq<PersonNode>) {
    forall i, j | 0 <= i < j < |chain| :: chain[i].sub != chain[j].sub
  }

  ghost predicate ManagerEdges(chain: seq<PersonNode>) {
    forall i | 0 <= i < |chain| - 1 :: chain[i].manager == Some(chain[i + 1].sub)
  }

  function Subs(chain: seq<PersonNode>): set<Sub> {
    set i | 0 <= i < |chain| :: chain[i].sub
  }

  // There is nobody left to climb to: no manager, an unknown one, or one already met.
  ghost predicate Stops(people: map<Sub, PersonNode>, met: set<Sub>, manager: Option<Sub>) {
    manager.None? || manager.value == "" || manager.value !in people || manager.value in met
  }

  lemma {:induction false} ChainShape(people: map<Sub, PersonNode>, current: Option<Sub>, seen: set<Sub>)
    requires Keyed(people)
    ensures var chain := ChainFrom(people, current, seen);
            && NoRepeats(chain) && ManagerEdges(chain)
            && (forall i | 0 <= i < |chain| ::
              chain[i].sub !in seen && chain[i].sub in people && chain[i] == people[chain[i].sub])
            && (chain != [] ==> Some(chain[0].sub) == current)
            && (chain == [] <==> Stops(people, seen, current))
    decreases |people.Keys - seen|
  {
    if !Stops(people, seen, current) {
      var node := people[current.value];
      assert people.Keys - (seen + {current.value}) == (people.Keys - seen) - {current.value};
      ChainShape(people, node.manager, seen + {current.value});
      var rest := ChainFrom(people, node.manager, seen + {current.value});
      var chain := ChainFrom(people, current, seen);
      assert chain == [node] + rest;
      assert forall i | 1 <= i < |chain| :: chain[i] == rest[i - 1];
      assert chain[0].sub == current.value;
    }
  }

  lemma {:induction false} ChainEnds(people: map<Sub, PersonNode>, current: Option<Sub>, seen: set<Sub>)
    requires Keyed(people)
    ensures var chain := ChainFrom(people, current, seen);
            chain != [] ==> Stops(people, seen + Subs(chain), chain[|chain| - 1].manager)
    decreases |people.Keys - seen|
  {
    hide NoRepeats, ManagerEdges, Subs;
    if !Stops(people, seen, current) {
      var node := people[current.value];
      assert people.Keys - (seen + {current.value}) == (people.Keys - seen) - {current.value};
      ChainEnds(people, node.manager, seen + {current.value});
      ChainShape(people, node.manager, seen + {current.value});
      var rest := ChainFrom(people, node.manager, seen + {current.value});
      SubsCons(node, rest);
      assert node.sub == current.value;
      assert seen + Subs([node] + rest) == seen + {current.value} + Subs(rest);
      if rest == [] {
        NoSubs();
        assert seen + {current.value} + {} == seen + {current.value};
      }
    }
  }

  lemma NoSubs()
    ensures Subs([]) == {}
  {}

  lemma SubsCons(node: PersonNode, rest: seq<PersonNode>)
    ensures Subs([node] + rest) == {node.sub} + Subs(rest)
  {
    var chain := [node] + rest;
    forall s ensures s in Subs(chain) <==> s in {node.sub} + Subs(rest) {
      if s in Subs(rest) {
        var i :| 0 <= i < |rest| && rest[i].sub == s;
        assert chain[i + 1].sub == s;
      }
      assert chain[0].sub == node.sub;
    }
  }

  // On any manager map, cyclic ones included: the chain starts at the person asked for, follows
  // manager edges, never repeats anybody, and ends only where there is nobody left to climb to.
  lemma ChainForIsTheManagerWalk(people: map<Sub, PersonNode>, sub: Sub)
    requires Keyed(people)
    ensures var chain := ChainFrom(people, Some(sub), {});
            && NoRepeats(chain) && ManagerEdges(chain)
            && (chain == [] <==> sub == "" || sub !in people)
            && (chain != [] ==> chain[0].sub == sub && Stops(people, Subs(chain), chain[|chain| - 1].manager))
            && |chain| <= |people|
  {
    ChainShape(people, Some(sub), {});
    ChainEnds(people, Some(sub), {});
    var chain := ChainFrom(people, Some(sub), {});
    assert {} + Subs(chain) == Subs(chain);
    SubsBounded(people, chain);
  }

  lemma {:induction false} SubsBounded(people: map<Sub, PersonNode>, chain: seq<PersonNode>)
    requires NoRepeats(chain) && forall i | 0 <= i < |chain| :: chain[i].sub in people
    ensures |chain| <= |people|
  {
    if chain != [] {
      var last := chain[|chain| - 1];
      var rest := people - {last.sub};
      assert rest.Keys == people.Keys - {last.sub};
      SubsBounded(rest, chain[..|chain| - 1]);
    }
  }

  // ---------------------------------------------------------------- the computed approver

  function FirstOther(chain: seq<PersonNode>, requester: Sub): Option<PersonNode> {
    if chain == [] then None
    else if Qualifies(chain[0]) && chain[0].sub != requester then Some(chain[0])
    else FirstOther(chain[1..], requester)
  }

  // compute_approver over the chain a client returned; None is NoApproverFound.
  method ComputeApprover(chain: seq<PersonNode>, requester: Sub) returns (r: Option<PersonNode>)
    ensures r == FirstOther(chain, requester)
  {
    for i := 0 to |chain|
      invariant FirstOther(chain, requester) == FirstOther(chain[i..], requester)
    {
      assert chain[i..][0] == chain[i] && chain[i..][1..] == chain[i + 1..];
      if !Qualifies(chain[i]) {
        continue;
      }
      if chain[i].sub == requester {
        continue;
      }
      return Some(chain[i]);
    }
    return None;
  }

  // `i` is the nearest place strictly above the requester where somebody qualifies.
  predicate NearestAbove(chain: seq<PersonNode>, i: int) {
    1 <= i < |chain| && Qualifies(chain[i]) && forall j | 1 <= j < i :: !Qualifies(chain[j])
  }

  lemma {:induction false} FirstOtherMeans(chain: seq<PersonNode>, requester: Sub)
    ensures var r := FirstOther(chain, requester);
            && (r.None? <==> forall i | 0 <= i < |chain| :: !Qualifies(chain[i]) || chain[i].sub == requester)
            && (r.Some? ==>
                  exists i :: && 0 <= i < |chain| && r == Some(chain[i]) && Qualifies(chain[i])
                              && chain[i].sub != requester
                              && forall j | 0 <= j < i :: !Qualifies(chain[j]) || chain[j].sub == requester)
  {
    if chain != [] && !(Qualifies(chain[0]) && chain[0].sub != requester) {
      FirstOtherMeans(chain[1..], requester);
      assert forall i | 1 <= i < |chain| :: chain[i] == chain[1..][i - 1];
      var r := FirstOther(chain[1..], requester);
      if r.Some? {
        var i :| 0 <= i < |chain| - 1 && r == Some(chain[1..][i]) && Qualifies(chain[1..][i])
          && chain[1..][i].sub != requester
                 && forall j | 0 <= j < i :: !Qualifies(chain[1..][j]) || chain[1..][j].sub == requester;
        assert r == Some(chain[i + 1]);
        assert forall j | 1 <= j < i + 1 :: chain[j] == chain[1..][j - 1];
      }
    }
  }

  // The approver is the nearest qualifying person strictly above the requester, who is skipped even
  // when they qualify; there is none exactly when nobody above them qualifies.
  lemma ApproverIsNearestAbove(chain: seq<PersonNode>, requester: Sub)
    requires NoRepeats(chain) && (chain != [] ==> chain[0].sub == requester)
    ensures var r := FirstOther(chain, requester);
            && (r.None? <==> forall i | 1 <= i < |chain| :: !Qualifies(chain[i]))
            && (forall i | NearestAbove(chain, i) :: r == Some(chain[i]))
            && (r.Some? ==> r.value.sub != requester && exists i :: NearestAbove(chain, i))
  {
    FirstOtherMeans(chain, requester);
    var r := FirstOther(chain, requester);
    hide Qualifies;
    assert forall i | 1 <= i < |chain| :: chain[i].sub != requester;
    if r.Some? {
      var k :| 0 <= k < |chain| && r == Some(chain[k]) && Qualifies(chain[k]) && chain[k].sub != requester
               && forall j | 0 <= j < k :: !Qualifies(chain[j]) || chain[j].sub == requester;
      assert NearestAbove(chain, k);
      forall i | NearestAbove(chain, i) ensures r == Some(chain[i]) {
        assert i == k;
      }
    }
  }

  // ---------------------------------------------------------------- the chain endpoint

  datatype UserRow = UserRow(subject: Sub, employee: EmployeeId)

  datatype EmployeeRow = EmployeeRow(approvalLevel: Option<string>, isApprover: bool, manager: Option<EmployeeId>)

  // `parse` is what uuid.UUID makes of the text after "user:"; it accepts more spellings of an id
  // than the one `subject` uses.
  type Parse = Sub -> Option<UserId>

  datatype Tables = Tables(users: map<UserId, UserRow>, employees: map<EmployeeId, EmployeeRow>)

  ghost predicate Canonical(t: Tables, parse: Parse) {
    && (forall u | u in t.users :: t.users[u].subject != "" && parse(t.users[u].subject) == Some(u))
    && (forall u, v | u in t.users && v in t.users && t.users[u].employee == t.users[v].employee :: u == v)
  }

  ghost function UserOf(t: Tables, e: EmployeeId): Option<UserId> {
    if exists u :: u in t.users && t.users[u].employee == e
    then var u :| u in t.users && t.users[u].employee == e; Some(u) else None
  }

  ghost function ManagerOf(t: Tables, e: EmployeeRow): Option<Sub> {
    if e.manager.None? || e.manager.value !in t.employees || UserOf(t, e.manager.value).None? then None
    else Some(t.users[UserOf(t, e.manager.value).value].subject)
  }

  ghost function NodeOf(t: Tables, u: UserId): PersonNode
    requires u in t.users && t.users[u].employee in t.employees
  {
    var e := t.employees[t.users[u].employee];
    PersonNode(t.users[u].subject, e.approvalLevel, e.isApprover, ManagerOf(t, e))
  }

  predicate Resolves(t: Tables, parse: Parse, sub: Sub) {
    parse(sub).Some? && parse(sub).value in t.users && t.users[parse(sub).value].employee in t.employees
  }

  ghost function OrgChainFrom(t: Tables, parse: Parse, current: Option<Sub>, seen: set<Sub>, cap: nat): seq<PersonNode>
    decreases cap
  {
    if cap == 0 || current.None? || current.value == "" || current.value in seen
        || !Resolves(t, parse, current.value) then []
    else
      var node := NodeOf(t, parse(current.value).value);
      [node] + OrgChainFrom(t, parse, node.manager, seen + {current.value}, cap - 1)
  }

  // The node of a person: their own row, and as manager the subject of whoever has the manager's row.
  lemma NodeMeans(t: Tables, parse: Parse, u: UserId)
    requires Canonical(t, parse) && u in t.users && t.users[u].employee in t.employees
    ensures var (e, n) := (t.employees[t.users[u].employee], NodeOf(t, u));
            && n.sub == t.users[u].subject && n.approvalLevel == e.approvalLevel && n.isApprover == e.isApprover
            && (forall v | v in t.users && e.manager == Some(t.users[v].employee) && e.manager.value in t.employees ::
                  n.manager == Some(t.users[v].subject))
            && (n.manager.Some? ==>
                  && e.manager.Some? && e.manager.value in t.employees
                  && exists v :: v in t.users && t.users[v].employee == e.manager.value)
  {
    var e := t.employees[t.users[u].employee];
    forall v | v in t.users && e.manager == Some(t.users[v].employee)
      ensures UserOf(t, e.manager.value) == Some(v)
    {
    }
  }

  const CHAIN_CAP: nat := 20

  method FindUserOf(t: Tables, e: EmployeeId) returns (u: Option<UserId>)
    ensures u.None? <==> forall x | x in t.users :: t.users[x].employee != e
    ensures u.Some? ==> u.value in t.users && t.users[u.value].employee == e
  {
    var todo := t.users.Keys;
    while todo != {}
      invariant todo <= t.users.Keys
      invariant forall x | x in t.users.Keys - todo :: t.users[x].employee != e
      decreases todo
    {
      var x :| x in todo;
      if t.users[x].employee == e {
        return Some(x);
      }
      todo := todo - {x};
    }
    return None;
  }

  method BuildNode(t: Tables, parse: Parse, u: UserId) returns (node: PersonNode)
    requires Canonical(t, parse) && u in t.users && t.users[u].employee in t.employees
    ensures node == NodeOf(t, u)
  {
    var employee := t.employees[t.users[u].employee];
    var manager: Option<Sub> := None;
    if employee.manager.Some? && employee.manager.value in t.employees {
      var boss := FindUserOf(t, employee.manager.value);
      if boss.Some? {
        manager := Some(t.users[boss.value].subject);
      }
    }
    node := PersonNode(t.users[u].subject, employee.approvalLevel, employee.isApprover, manager);
  }

  lemma OrgChainStep(t: Tables, parse: Parse, current: Option<Sub>, seen: set<Sub>, cap: nat)
    ensures var chain := OrgChainFrom(t, parse, current, seen, cap);
            if cap == 0 || current.None? || current.value == "" || current.value in seen
                || !Resolves(t, parse, current.value)
            then chain == []
            else var node := NodeOf(t, parse(current.value).value);
                 chain == [node] + OrgChainFrom(t, parse, node.manager, seen + {current.value}, cap - 1)
  {
    hide NodeOf;
  }

  // GET /org/chain
  method OrgChain(t: Tables, parse: Parse, sub: Sub) returns (chain: seq<PersonNode>)
    requires Canonical(t, parse)
    ensures chain == OrgChainFrom(t, parse, Some(sub), {}, CHAIN_CAP)
  {
    hide NodeOf, Canonical, OrgChainFrom;
    chain := [];
    var seen: set<Sub> := {};
    var current: Option<Sub> := Some(sub);
    for i := 0 to CHAIN_CAP
      invariant chain + OrgChainFrom(t, parse, current, seen, CHAIN_CAP - i)
          == OrgChainFrom(t, parse, Some(sub), {}, CHAIN_CAP)
    {
      OrgChainStep(t, parse, current, seen, CHAIN_CAP - i);
      if current.None? || current.value == "" || current.value in seen {
        return;
      }
      var here := current.value;
      var id := parse(here);
      if id.None? || id.value !in t.users || t.users[id.value].employee !in t.employees {
        return;
      }
      seen := seen + {here};
      var node := BuildNode(t, parse, id.value);
      assert chain + ([node] + OrgChainFrom(t, parse, node.manager, seen, CHAIN_CAP - i - 1))
          == (chain + [node]) + OrgChainFrom(t, parse, node.manager, seen, CHAIN_CAP - i - 1);
      chain := chain + [node];
      current := node.manager;
    }
    OrgChainStep(t, parse, current, seen, 0);
  }

  // ---------------------------------------------------------------- the two walks agree

  // The same people as an in-memory fixture.
  ghost function Directory(t: Tables, parse: Parse): map<Sub, PersonNode>
    requires Canonical(t, parse)
  {
    map u | u in t.users && t.users[u].employee in t.employees :: t.users[u].subject := NodeOf(t, u)
  }

  function Take<T>(s: seq<T>, n: nat): seq<T> {
    if |s| <= n then s else s[..n]
  }

  lemma DirectoryEntry(t: Tables, parse: Parse, u: UserId)
    requires Canonical(t, parse) && u in t.users
    ensures t.users[u].subject in Directory(t, parse) <==> t.users[u].employee in t.employees
    ensures t.users[u].employee in t.employees ==> Directory(t, parse)[t.users[u].subject] == NodeOf(t, u)
  {
    hide NodeOf;
  }

  lemma ManagerIsCanonical(t: Tables, parse: Parse, u: UserId)
    requires Canonical(t, parse) && u in t.users && t.users[u].employee in t.employees
    ensures NodeOf(t, u).manager.Some? ==> exists m :: m in t.users && NodeOf(t, u).manager == Some(t.users[m].subject)
  {}

  // From any canonical subject the endpoint lists the first `cap` people of the in-memory walk.
  lemma {:induction false} OrgChainIsAPrefix(t: Tables, parse: Parse, current: Option<Sub>, seen: set<Sub>, cap: nat)
    requires Canonical(t, parse)
    requires current.Some? ==> exists u :: u in t.users && current == Some(t.users[u].subject)
    ensures OrgChainFrom(t, parse, current, seen, cap) == Take(ChainFrom(Directory(t, parse), current, seen), cap)
    decreases cap
  {
    hide NodeOf, Directory;
    if current.Some? && cap > 0 && current.value !in seen {
      var u :| u in t.users && current == Some(t.users[u].subject);
      DirectoryEntry(t, parse, u);
      if t.users[u].employee in t.employees {
        var node := NodeOf(t, u);
        var people := Directory(t, parse);
        ManagerIsCanonical(t, parse, u);
        OrgChainIsAPrefix(t, parse, node.manager, seen + {current.value}, cap - 1);
        var rest := ChainFrom(people, node.manager, seen + {current.value});
        assert ChainFrom(people, current, seen) == [node] + rest;
        assert Take([node] + rest, cap) == [node] + Take(rest, cap - 1);
      }
    }
  }

  // Over the two clients the same requester gets the same approver exactly when nobody qualifies above
  // them or the nearest who does is among the first twenty people of the chain.
  lemma ClientsAgreeIff(chain: seq<PersonNode>, requester: Sub)
    requires NoRepeats(chain) && (chain != [] ==> chain[0].sub == requester)
    ensures FirstOther(Take(chain, CHAIN_CAP), requester) == FirstOther(chain, requester)
            <==> forall i | NearestAbove(chain, i) :: i < 20
  {
    hide Qualifies;
    var short := Take(chain, CHAIN_CAP);
    ApproverIsNearestAbove(chain, requester);
    ApproverIsNearestAbove(short, requester);
    assert forall i | 0 <= i < |short| :: short[i] == chain[i];
    assert forall i | NearestAbove(short, i) :: NearestAbove(chain, i);
    assert forall i | NearestAbove(chain, i) && i < CHAIN_CAP :: NearestAbove(short, i);
  }

  // ---------------------------------------------------------------- another spelling

  lemma {:induction false} StrangerSeen(people: map<Sub, PersonNode>, current: Option<Sub>, seen: set<Sub>,
      stranger: Sub)
    requires stranger !in people
    ensures ChainFrom(people, current, seen + {stranger}) == ChainFrom(people, current, seen)
    decreases |people.Keys - seen|
  {
    if current.Some? && current.value != "" && current.value !in seen && current.value in people {
      var more := seen + {current.value};
      assert people.Keys - more == (people.Keys - seen) - {current.value};
      StrangerSeen(people, people[current.value].manager, more, stranger);
      assert more + {stranger} == seen + {stranger} + {current.value};
    }
  }

  // `sub` names user `u`, but not the way `subject` does.
  ghost predicate OtherSpelling(t: Tables, parse: Parse, sub: Sub, u: UserId) {
    && Canonical(t, parse) && Resolves(t, parse, sub) && parse(sub) == Some(u) && sub != "" && sub != t.users[u].subject
  }

  lemma SpellingIsStrange(t: Tables, parse: Parse, sub: Sub, u: UserId)
    requires OtherSpelling(t, parse, sub, u)
    ensures sub !in Directory(t, parse)
  {
    hide NodeOf;
  }

  lemma DirectoryKeyed(t: Tables, parse: Parse)
    requires Canonical(t, parse)
    ensures Keyed(Directory(t, parse))
  {}

  // The endpoint then lists the person, and behind them the walk from their manager as if nobody had
  // been met yet.
  lemma SpelledChain(t: Tables, parse: Parse, sub: Sub, u: UserId)
    requires OtherSpelling(t, parse, sub, u)
    ensures OrgChainFrom(t, parse, Some(sub), {}, CHAIN_CAP)
            == [NodeOf(t, u)] + Take(ChainFrom(Directory(t, parse), NodeOf(t, u).manager, {}), CHAIN_CAP - 1)
  {
    hide OrgChainFrom, ChainFrom, NodeOf, Directory;
    ManagerIsCanonical(t, parse, u);
    SpellingIsStrange(t, parse, sub, u);
    OrgChainStep(t, parse, Some(sub), {}, CHAIN_CAP);
    OrgChainIsAPrefix(t, parse, NodeOf(t, u).manager, {} + {sub}, CHAIN_CAP - 1);
    StrangerSeen(Directory(t, parse), NodeOf(t, u).manager, {}, sub);
  }

  lemma NodeNamed(t: Tables, u: UserId)
    requires u in t.users && t.users[u].employee in t.employees
    ensures NodeOf(t, u).sub == t.users[u].subject
  {}

  lemma OneInFront(node: PersonNode, rest: seq<PersonNode>)
    requires NoRepeats(rest)
    ensures NoRepeats([node] + rest) <==> node.sub !in Subs(rest)
  {
    var chain := [node] + rest;
    assert forall i | 0 <= i < |rest| :: chain[i + 1] == rest[i];
    if node.sub in Subs(rest) {
      var i :| 0 <= i < |rest| && rest[i].sub == node.sub;
      assert chain[0].sub == chain[i + 1].sub;
    } else {
      assert forall i | 1 <= i < |chain| :: chain[i] == rest[i - 1] && rest[i - 1].sub in Subs(rest);
    }
  }

  // Somebody is listed twice exactly when the person themselves is met again within the cap.
  lemma SpellingRepeatsIff(t: Tables, parse: Parse, sub: Sub, u: UserId)
    requires OtherSpelling(t, parse, sub, u)
    ensures NoRepeats(OrgChainFrom(t, parse, Some(sub), {}, CHAIN_CAP)) <==>
            t.users[u].subject !in Subs(Take(ChainFrom(Directory(t, parse), NodeOf(t, u).manager, {}), CHAIN_CAP - 1))
  {
    SpelledChain(t, parse, sub, u);
    DirectoryKeyed(t, parse);
    NodeNamed(t, u);
    hide Directory, ChainFrom, OrgChainFrom, Subs, Stops, ManagerEdges, Keyed, NodeOf;
    ChainShape(Directory(t, parse), NodeOf(t, u).manager, {});
    OneInFront(NodeOf(t, u), Take(ChainFrom(Directory(t, parse), NodeOf(t, u).manager, {}), CHAIN_CAP - 1));
  }

  lemma FirstInFront(node: PersonNode, rest: seq<PersonNode>, people: map<Sub, PersonNode>, requester: Sub)
    requires requester != node.sub && (node.sub in people ==> people[node.sub] == node)
    requires forall i | 0 <= i < |rest| :: rest[i].sub in people && people[rest[i].sub] == rest[i]
    ensures var r := FirstOther([node] + rest, requester);
            r.Some? && r.value.sub == node.sub <==> Qualifies(node)
  {
    var chain := [node] + rest;
    hide Qualifies;
    FirstOtherMeans(chain, requester);
    hide FirstOther;
    assert chain[0] == node;
    assert forall i | 1 <= i < |chain| :: chain[i] == rest[i - 1];
  }

  // They are named their own approver exactly when they qualify, cycle or not.
  lemma SpellingApprovesItselfIff(t: Tables, parse: Parse, sub: Sub, u: UserId)
    requires OtherSpelling(t, parse, sub, u)
    ensures var r := FirstOther(OrgChainFrom(t, parse, Some(sub), {}, CHAIN_CAP), sub);
            r.Some? && r.value.sub == t.users[u].subject <==> Qualifies(NodeOf(t, u))
  {
    SpelledChain(t, parse, sub, u);
    DirectoryKeyed(t, parse);
    DirectoryEntry(t, parse, u);
    NodeNamed(t, u);
    hide Directory, ChainFrom, OrgChainFrom, NodeOf, Qualifies, FirstOther, Subs, Stops, ManagerEdges, NoRepeats, Keyed;
    var people := Directory(t, parse);
    ChainShape(people, NodeOf(t, u).manager, {});
    FirstInFront(NodeOf(t, u), Take(ChainFrom(people, NodeOf(t, u).manager, {}), CHAIN_CAP - 1), people, sub);
  }

  // It happens: another spelling of the same id, on a management cycle, lists its owner twice and makes
  // them their own approver.
  lemma OtherSpellingRepeats()
    ensures exists t: Tables, parse: Parse, sub: Sub ::
              && Canonical(t, parse) && Resolves(t, parse, sub)
              && !NoRepeats(OrgChainFrom(t, parse, Some(sub), {}, CHAIN_CAP))
              && FirstOther(OrgChainFrom(t, parse, Some(sub), {}, CHAIN_CAP), sub)
                == Some(OrgChainFrom(t, parse, Some(sub), {}, CHAIN_CAP)[0])
  {
    var parse: Parse := s => if s == "user:a" || s == "user:A" then Some(1) else None;
    var t := Tables(map[1 := UserRow("user:a", 7)], map[7 := EmployeeRow(None, true, Some(7))]);
    assert Canonical(t, parse);
    assert t.users[1].employee == 7;
    assert UserOf(t, 7) == Some(1);
    var node := NodeOf(t, 1);
    assert node == PersonNode("user:a", None, true, Some("user:a"));
    var third := OrgChainFrom(t, parse, Some("user:a"), {"user:A"} + {"user:a"}, CHAIN_CAP - 2);
    assert third == [];
    var second := OrgChainFrom(t, parse, Some("user:a"), {} + {"user:A"}, CHAIN_CAP - 1);
    assert second == [node] + OrgChainFrom(t, parse, Some("user:a"), {} + {"user:A"} + {"user:a"}, CHAIN_CAP - 2);
    var chain := OrgChainFrom(t, parse, Some("user:A"), {}, CHAIN_CAP);
    assert chain == [node] + second;
    assert chain[0].sub == chain[1].sub;
    assert Resolves(t, parse, "user:A");
  }
}
