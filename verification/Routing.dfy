/** Approval routing: the rule matrix, then the manager chain, then the default approver
    (servicedesk/app/routing.py:29-103), and the policy a new request stores
    (servicedesk/app/routers/tickets.py:92-104). */
module Routing {
  import opened Options
  import OrgChart
  import Tickets
  import TicketApprovals

  type Sub = string
  type Instant = int

  datatype ApprovalRule = ApprovalRule(
    id: nat, department: Option<string>, category: Option<string>, priority: Option<string>,
    active: bool, createdAt: Instant, anyOf: bool, approvers: seq<Option<Sub>>)

  // A ticket's shape; `category` is the service it is about, if any.
  datatype Shape = Shape(department: string, category: Option<string>, priority: string)

  predicate Matches(r: ApprovalRule, s: Shape) {
    && r.active
    && (r.department.None? || r.department.value == s.department)
    && (r.category.None? || r.category == s.category)
    && (r.priority.None? || r.priority.value == s.priority)
  }

  function Specificity(r: ApprovalRule): nat {
    (if r.department.Some? then 1 else 0) + (if r.category.Some? then 1 else 0) + (if r.priority.Some? then 1 else 0)
  }

  // The sort key: most specific first, then oldest first.
  predicate Before(a: ApprovalRule, b: ApprovalRule) {
    Specificity(a) > Specificity(b) || (Specificity(a) == Specificity(b) && a.createdAt < b.createdAt)
  }

  function Filtered(rows: seq<ApprovalRule>, s: Shape): (r: seq<ApprovalRule>)
    ensures forall x :: x in r <==> x in rows && Matches(x, s)
  {
    if rows == [] then []
    else
      var last := rows[|rows| - 1];
      assert rows == rows[..|rows| - 1] + [last];
      Filtered(rows[..|rows| - 1], s) + (if Matches(last, s) then [last] else [])
  }

  // list.sort keeps equal keys in their order: a row goes behind every row it does not precede.
  function Insert(sorted: seq<ApprovalRule>, r: ApprovalRule): seq<ApprovalRule> {
    if sorted == [] then [r]
    else if Before(r, sorted[|sorted| - 1]) then Insert(sorted[..|sorted| - 1], r) + [sorted[|sorted| - 1]]
    else sorted + [r]
  }

  function Sort(rows: seq<ApprovalRule>): seq<ApprovalRule> {
    if rows == [] then [] else Insert(Sort(rows[..|rows| - 1]), rows[|rows| - 1])
  }

  // find_matching_rules
  function FindMatchingRules(rows: seq<ApprovalRule>, s: Shape): seq<ApprovalRule> {
    Sort(Filtered(rows, s))
  }

  function BestRule(rows: seq<ApprovalRule>, s: Shape): Option<ApprovalRule> {
    var found := FindMatchingRules(rows, s);
    if found == [] then None else Some(found[0])
  }

  datatype Source = ByRule | ByChain | ByDefault | Nobody

  datatype RoutingResult = RoutingResult(approver: Option<Sub>, source: Source, approvers: Option<seq<Option<Sub>>>,
      anyOf: bool)

  // A listed approver who is named and is not the requester.
  predicate CanAsk(candidate: Option<Sub>, requester: Sub) {
    candidate.Some? && candidate.value != "" && candidate.value != requester
  }

  function FirstAskable(approvers: seq<Option<Sub>>, requester: Sub): Option<Sub> {
    if approvers == [] then None
    else if CanAsk(approvers[0], requester) then approvers[0]
    else FirstAskable(approvers[1..], requester)
  }

  // `chain` is what the org-chart client returned for the requester.
  method ResolveApprover(rows: seq<ApprovalRule>, s: Shape, requester: Sub, chain: seq<OrgChart.PersonNode>,
      fallback: Option<Sub>)
    returns (r: RoutingResult)
    ensures r == Resolved(rows, s, requester, chain, fallback)
  {
    var rule := BestRule(rows, s);
    if rule.Some? && rule.value.approvers != [] {
      var approvers := rule.value.approvers;
      for i := 0 to |approvers|
        invariant FirstAskable(approvers, requester) == FirstAskable(approvers[i..], requester)
      {
        assert approvers[i..][0] == approvers[i] && approvers[i..][1..] == approvers[i + 1..];
        if approvers[i].Some? && approvers[i].value != "" && approvers[i].value != requester {
          return RoutingResult(approvers[i], ByRule, Some(approvers), rule.value.anyOf);
        }
      }
    }
    var node := OrgChart.ComputeApprover(chain, requester);
    if node.Some? {
      return RoutingResult(Some(node.value.sub), ByChain, None, false);
    }
    if fallback.Some? && fallback.value != "" {
      return RoutingResult(fallback, ByDefault, None, false);
    }
    return RoutingResult(None, Nobody, None, false);
  }

  function Resolved(rows: seq<ApprovalRule>, s: Shape, requester: Sub, chain: seq<OrgChart.PersonNode>,
      fallback: Option<Sub>): RoutingResult
  {
    var rule := BestRule(rows, s);
    var asked := if rule.Some? then FirstAskable(rule.value.approvers, requester) else None;
    var node := OrgChart.FirstOther(chain, requester);
    if asked.Some? then RoutingResult(asked, ByRule, Some(rule.value.approvers), rule.value.anyOf)
    else if node.Some? then RoutingResult(Some(node.value.sub), ByChain, None, false)
    else if fallback.Some? && fallback.value != "" then RoutingResult(fallback, ByDefault, None, false)
    else RoutingResult(None, Nobody, None, false)
  }

  // ---------------------------------------------------------------- the best rule

  ghost predicate Sorted(s: seq<ApprovalRule>) {
    forall i, j | 0 <= i < j < |s| :: !Before(s[j], s[i])
  }

  lemma {:induction false} InsertSorts(sorted: seq<ApprovalRule>, r: ApprovalRule)
    requires Sorted(sorted)
    ensures Sorted(Insert(sorted, r)) && multiset(Insert(sorted, r)) == multiset(sorted) + multiset{r}
  {
    hide Before;
    if sorted != [] {
      var n := |sorted| - 1;
      var last := sorted[n];
      assert sorted == sorted[..n] + [last];
      if Before(r, last) {
        InsertSorts(sorted[..n], r);
        var front := Insert(sorted[..n], r);
        forall i | 0 <= i < |front| ensures !Before(last, front[i]) {
          assert front[i] in multiset(front);
          BeforeOrder(r, last, last);
        }
      } else {
        forall i | 0 <= i < |sorted| ensures !Before(r, sorted[i]) {
          BeforeOrder(r, sorted[i], last);
        }
      }
    }
  }

  lemma BeforeOrder(a: ApprovalRule, b: ApprovalRule, c: ApprovalRule)
    ensures Before(a, b) ==> !Before(b, a)
    ensures Before(a, b) && !Before(c, b) ==> Before(a, c)
  {}

  lemma {:induction false} SortSorts(rows: seq<ApprovalRule>)
    ensures Sorted(Sort(rows)) && multiset(Sort(rows)) == multiset(rows)
  {
    if rows != [] {
      SortSorts(rows[..|rows| - 1]);
      InsertSorts(Sort(rows[..|rows| - 1]), rows[|rows| - 1]);
      assert rows == rows[..|rows| - 1] + [rows[|rows| - 1]];
    }
  }

  datatype Ask = Department(name: string) | Category(name: string) | Priority(name: string)

  // What a rule asks of a ticket, and what a ticket has.
  function Asks(r: ApprovalRule): set<Ask> {
    (if r.department.Some? then {Department(r.department.value)} else {})
    + (if r.category.Some? then {Category(r.category.value)} else {})
    + (if r.priority.Some? then {Priority(r.priority.value)} else {})
  }

  function Has(s: Shape): set<Ask> {
    {Department(s.department), Priority(s.priority)} + (if s.category.Some? then {Category(s.category.value)} else {})
  }

  // The ticket has everything the rule asks.
  predicate Covers(r: ApprovalRule, s: Shape) {
    r.active && Asks(r) <= Has(s)
  }

  lemma MatchingMeans(r: ApprovalRule, s: Shape)
    ensures Matches(r, s) <==> Covers(r, s)
  {
    assert r.department.Some? ==> Department(r.department.value) in Asks(r);
    assert r.category.Some? ==> Category(r.category.value) in Asks(r);
    assert r.priority.Some? ==> Priority(r.priority.value) in Asks(r);
  }

  lemma SpecificityMeans(r: ApprovalRule)
    ensures Specificity(r) == |Asks(r)|
  {
    var d: set<Ask> := if r.department.Some? then {Department(r.department.value)} else {};
    var c: set<Ask> := if r.category.Some? then {Category(r.category.value)} else {};
    var p: set<Ask> := if r.priority.Some? then {Priority(r.priority.value)} else {};
    assert |d + c| == |d| + |c| && |d + c + p| == |d + c| + |p|;
  }

  // `a` asks for more than `b`, or for as much and is older.
  predicate Outranks(a: ApprovalRule, b: ApprovalRule) {
    |Asks(a)| > |Asks(b)| || (|Asks(a)| == |Asks(b)| && a.createdAt < b.createdAt)
  }

  // Row `i` covers the ticket, outranks every covering row above it, and is outranked by none below.
  ghost predicate Chosen(rows: seq<ApprovalRule>, s: Shape, i: int) {
    && 0 <= i < |rows| && Covers(rows[i], s)
    && (forall j | 0 <= j < i && Covers(rows[j], s) :: Outranks(rows[i], rows[j]))
    && (forall j | i < j < |rows| && Covers(rows[j], s) :: !Outranks(rows[j], rows[i]))
  }

  lemma {:induction false} InsertFirst(sorted: seq<ApprovalRule>, r: ApprovalRule)
    requires Sorted(sorted) && sorted != []
    ensures Insert(sorted, r) != []
        && Insert(sorted, r)[0] == if Before(r, sorted[0]) then r else sorted[0]
  {
    hide Before;
    var n := |sorted| - 1;
    if Before(r, sorted[n]) {
      if n > 0 {
        InsertFirst(sorted[..n], r);
      }
    } else if n > 0 {
      BeforeOrder(r, sorted[0], sorted[n]);
    }
  }

  lemma BestRuleOneMore(rows: seq<ApprovalRule>, s: Shape)
    requires rows != []
    ensures var (r, best) := (rows[|rows| - 1], BestRule(rows[..|rows| - 1], s));
            BestRule(rows, s) == if !Matches(r, s) then best
                                 else if best.None? || Before(r, best.value) then Some(r)
                                 else best
  {
    hide Matches, Before;
    var front := Filtered(rows[..|rows| - 1], s);
    var r := rows[|rows| - 1];
    if Matches(r, s) {
      assert Filtered(rows, s)[..|front|] == front;
      SortSorts(front);
      if Sort(front) != [] {
        InsertFirst(Sort(front), r);
      }
    } else {
      assert Filtered(rows, s) == front;
    }
  }

  lemma OutranksMeans(a: ApprovalRule, b: ApprovalRule)
    ensures Before(a, b) <==> Outranks(a, b)
  {
    SpecificityMeans(a);
    SpecificityMeans(b);
    hide Asks, Specificity;
  }

  // One more row becomes the chosen one, or leaves the choice as it was.
  lemma ChosenOneMore(rows: seq<ApprovalRule>, s: Shape, i: int)
    requires rows != [] && Chosen(rows[..|rows| - 1], s, i)
    ensures var r := rows[|rows| - 1];
            Chosen(rows, s, if Covers(r, s) && Outranks(r, rows[i]) then |rows| - 1 else i)
  {
    hide Covers, Asks;
    assert forall j | 0 <= j < |rows| - 1 :: rows[..|rows| - 1][j] == rows[j];
  }

  // The best rule asks for more than any other that covers the ticket; among those that ask for as much
  // it is the oldest, and among those of one age the first row. There is none exactly when no active
  // rule covers the ticket.
  lemma {:induction false} BestRuleIsChosen(rows: seq<ApprovalRule>, s: Shape)
    ensures BestRule(rows, s).None? <==> forall i | 0 <= i < |rows| :: !Covers(rows[i], s)
    ensures BestRule(rows, s).Some? ==> exists i :: Chosen(rows, s, i) && BestRule(rows, s).value == rows[i]
  {
    hide BestRule, Covers, Matches, Before, Outranks;
    if rows == [] {
      NoRows(s);
    } else {
      var n := |rows| - 1;
      var front := rows[..n];
      assert forall i | 0 <= i < n :: front[i] == rows[i];
      BestRuleIsChosen(front, s);
      BestRuleOneMore(rows, s);
      MatchingMeans(rows[n], s);
      if BestRule(front, s).Some? {
        var i :| Chosen(front, s, i) && BestRule(front, s).value == front[i];
        OutranksMeans(rows[n], front[i]);
        ChosenOneMore(rows, s, i);
      } else if Covers(rows[n], s) {
        assert Chosen(rows, s, n);
      }
    }
  }

  lemma NoRows(s: Shape)
    ensures BestRule([], s).None?
  {}

  // ---------------------------------------------------------------- who is never asked

  lemma {:induction false} FirstAskableMeans(approvers: seq<Option<Sub>>, requester: Sub)
    ensures var r := FirstAskable(approvers, requester);
            && (r.None? <==> forall i | 0 <= i < |approvers| :: !CanAsk(approvers[i], requester))
            && (r.Some? ==>
                  && CanAsk(r, requester)
                  && exists i :: && 0 <= i < |approvers| && approvers[i] == r
                                 && forall j | 0 <= j < i :: !CanAsk(approvers[j], requester))
  {
    if approvers != [] && !CanAsk(approvers[0], requester) {
      FirstAskableMeans(approvers[1..], requester);
      assert forall i | 1 <= i < |approvers| :: approvers[i] == approvers[1..][i - 1];
      var r := FirstAskable(approvers[1..], requester);
      if r.Some? {
        var i :| 0 <= i < |approvers| - 1 && approvers[1..][i] == r
          && forall j | 0 <= j < i :: !CanAsk(approvers[1..][j], requester);
        assert approvers[i + 1] == r;
        assert forall j | 1 <= j < i + 1 :: approvers[j] == approvers[1..][j - 1];
      }
    }
  }

  // A rule or the chain never names the requester; only the default can, and then only when nobody
  // else could be asked.
  lemma RequesterIsNeverNamed(rows: seq<ApprovalRule>, s: Shape, requester: Sub, chain: seq<OrgChart.PersonNode>,
      fallback: Option<Sub>)
    ensures var r := Resolved(rows, s, requester, chain, fallback);
            && (r.source == ByRule || r.source == ByChain ==> r.approver.Some? && r.approver != Some(requester))
            && (r.approver == Some(requester) <==> r.source == ByDefault && fallback == Some(requester))
            && (r.approver.None? <==> r.source == Nobody)
            && (r.source == ByRule <==>
                  && BestRule(rows, s).Some?
                  && exists i :: && 0 <= i < |BestRule(rows, s).value.approvers|
                                 && CanAsk(BestRule(rows, s).value.approvers[i], requester))
  {
    hide BestRule, FirstAskable, OrgChart.FirstOther;
    OrgChart.FirstOtherMeans(chain, requester);
    if BestRule(rows, s).Some? {
      FirstAskableMeans(BestRule(rows, s).value.approvers, requester);
    }
  }

  predicate NamesAnother(candidate: Option<Sub>, requester: Sub) {
    candidate.Some? && candidate.value !in {"", requester}
  }

  // Nobody the best rule lists is named and somebody else than the requester.
  ghost predicate RuleAsksNobody(rows: seq<ApprovalRule>, s: Shape, requester: Sub) {
    BestRule(rows, s).Some? ==>
      var listed := BestRule(rows, s).value.approvers;
      forall i | 0 <= i < |listed| :: !NamesAnother(listed[i], requester)
  }

  // An approver, or of any approval level but the operational one.
  predicate MayApprove(n: OrgChart.PersonNode, requester: Sub) {
    && n.sub != requester
    && (n.isApprover || !(n.approvalLevel.None? || n.approvalLevel.value in {"", "Operational"}))
  }

  // The chain is asked only when the rule asks nobody, the default only when nobody on the chain may
  // approve either, and nobody is named only when there is no default: in that order each names its
  // first, nearest or only candidate.
  lemma SourcesInOrder(rows: seq<ApprovalRule>, s: Shape, requester: Sub, chain: seq<OrgChart.PersonNode>,
      fallback: Option<Sub>)
    ensures var r := Resolved(rows, s, requester, chain, fallback);
            var ruled := !RuleAsksNobody(rows, s, requester);
            var chained := exists i :: 0 <= i < |chain| && MayApprove(chain[i], requester);
            var kept := fallback.Some? && fallback.value != "";
            && (r.source == ByRule <==> ruled)
            && (r.source == ByChain <==> !ruled && chained)
            && (r.source == ByDefault <==> !ruled && !chained && kept)
            && (r.source == Nobody <==> !ruled && !chained && !kept)
    ensures var r := Resolved(rows, s, requester, chain, fallback);
            match r.source
            case ByRule =>
              var rule := BestRule(rows, s).value;
              && r.approvers == Some(rule.approvers) && r.anyOf == rule.anyOf
              && exists i :: && 0 <= i < |rule.approvers| && r.approver == rule.approvers[i]
                             && NamesAnother(r.approver, requester)
                             && forall j | 0 <= j < i :: !NamesAnother(rule.approvers[j], requester)
            case ByChain =>
              && r.approvers == None && !r.anyOf
              && exists i :: && 0 <= i < |chain| && r.approver == Some(chain[i].sub) && MayApprove(chain[i], requester)
                             && forall j | 0 <= j < i :: !MayApprove(chain[j], requester)
            case ByDefault => r.approver == fallback && r.approvers == None && !r.anyOf
            case Nobody => r.approver == None && r.approvers == None && !r.anyOf
  {
    hide BestRule, FirstAskable, OrgChart.FirstOther;
    OrgChart.FirstOtherMeans(chain, requester);
    assert forall i | 0 <= i < |chain| ::
        MayApprove(chain[i], requester) <==> OrgChart.Qualifies(chain[i]) && chain[i].sub != requester;
    if BestRule(rows, s).Some? {
      FirstAskableMeans(BestRule(rows, s).value.approvers, requester);
    }
  }

  // ---------------------------------------------------------------- what the ticket stores

  // The approvers a new request keeps: the named ones other than the requester.
  function Kept(approvers: seq<Option<Sub>>, requester: Sub): seq<Sub> {
    if approvers == [] then []
    else (if CanAsk(approvers[0], requester) then [approvers[0].value] else []) + Kept(approvers[1..], requester)
  }

  function RouteOf(r: RoutingResult, requester: Sub): Tickets.Route
    requires r.approver.Some?
  {
    var listed := if r.approvers.Some? && r.approvers.value != [] then r.approvers.value else [r.approver];
    Tickets.Route(r.anyOf, Kept(listed, requester), r.approver.value)
  }

  // The approvers a request keeps are the named ones other than the requester, in their order: list by
  // list, and one by one.
  lemma {:induction false} KeptJoins(a: seq<Option<Sub>>, b: seq<Option<Sub>>, requester: Sub)
    ensures Kept(a + b, requester) == Kept(a, requester) + Kept(b, requester)
    ensures forall x :: Kept([Some(x)], requester) == if x == "" || x == requester then [] else [x]
    ensures Kept([None], requester) == []
  {
    assert forall x: Option<Sub> :: [x][1..] == [];
    if a == [] {
      assert a + b == b;
    } else {
      assert (a + b)[1..] == a[1..] + b;
      KeptJoins(a[1..], b, requester);
    }
  }

  lemma {:induction false} KeptMeans(approvers: seq<Option<Sub>>, requester: Sub)
    ensures requester !in Kept(approvers, requester)
    ensures var r := FirstAskable(approvers, requester);
            if r.None? then Kept(approvers, requester) == []
                else Kept(approvers, requester) != [] && Some(Kept(approvers, requester)[0]) == r
  {
    if approvers != [] {
      KeptMeans(approvers[1..], requester);
    }
  }

  lemma {:induction false} WithoutAbsent(s: seq<Sub>, x: Sub)
    requires x !in s
    ensures Tickets.Without(s, [x]) == s
  {
    if s != [] {
      WithoutAbsent(s[1..], x);
    }
  }

  // The policy of the request: the mode of the routing, the approver asked first, and as approvers the
  // askable ones a rule lists, or else that approver, unless it is the requester.
  lemma RouteMeans(r: RoutingResult, requester: Sub)
    requires r.approver.Some?
    ensures var route := RouteOf(r, requester);
            && route.anyOf == r.anyOf && Some(route.approver) == r.approver
            && (r.approvers.Some? && r.approvers.value != [] ==> route.approvers == Kept(r.approvers.value, requester))
            && (r.approvers == None || r.approvers == Some([]) ==>
                  route.approvers == if r.approver.value == "" || r.approver.value == requester then []
                                     else [r.approver.value])
  {
    KeptJoins([], [r.approver], requester);
  }

  // Routing gives the decision protocol what it relies on; nobody on a chain has an empty subject.
  lemma RoutingSetsUpTheApproval(rows: seq<ApprovalRule>, s: Shape, requester: Sub, chain: seq<OrgChart.PersonNode>,
      fallback: Option<Sub>)
    requires Resolved(rows, s, requester, chain, fallback).approver.Some?
    requires forall i | 0 <= i < |chain| :: chain[i].sub != ""
    ensures TicketApprovals.Routed(RouteOf(Resolved(rows, s, requester, chain, fallback), requester), requester)
  {
    var r := Resolved(rows, s, requester, chain, fallback);
    var approvers := if r.approvers.Some? && r.approvers.value != [] then r.approvers.value else [r.approver];
    KeptMeans(approvers, requester);
    WithoutAbsent(Kept(approvers, requester), requester);
    assert [r.approver][1..] == [];
    hide BestRule, OrgChart.FirstOther;
    OrgChart.FirstOtherMeans(chain, requester);
  }
}
