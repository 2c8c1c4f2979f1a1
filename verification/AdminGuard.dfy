/** The last-administrator rule and every handler that could break it
    (backend/app/authorization.py:42-68, backend/app/routers/people.py:334-388, 617-700, 1053-1125,
    backend/app/routers/platform.py:1390-1404, backend/app/people_sheet.py:515-607). */
module AdminGuard {
  import opened Options

  type UserId = nat

  datatype Status = Active | Suspended | Exited

  // A user with the employee record behind it.
  datatype User = User(admin: bool, active: bool, status: Status)

  type Users = map<UserId, User>

  datatype Refusal = NotFound | Forbidden | Invalid | LastAdmin

  // The administrators who can sign in.
  function ActiveAdmins(us: Users): set<UserId> {
    set u | u in us && us[u].admin && us[u].active && us[u].status == Active
  }

  function AdminUsers(us: Users): set<UserId> {
    set u | u in us && us[u].admin && us[u].active
  }

  predicate ActingAdmin(us: Users, actor: UserId) {
    actor in us && us[actor].admin && us[actor].active
  }

  // protected_admin_change; None lets the change through.
  function Protect(us: Users, actor: UserId, target: UserId, removing: bool): Option<Refusal>
    requires target in us
  {
    if !ActingAdmin(us, actor) then Some(Forbidden)
    else if removing && us[target].admin && us[target].active && |ActiveAdmins(us)| <= 1 then Some(LastAdmin)
    else None
  }

  function Set(us: Users, target: UserId, admin: Option<bool>, active: Option<bool>): Users
    requires target in us
  {
    us[target := us[target].(admin := if admin.Some? then admin.value else us[target].admin,
                             active := if active.Some? then active.value else us[target].active)]
  }

  // A row of the people sheet that reached the account step.
  datatype Row = Row(user: UserId, exited: bool)

  // `permitted` stands for the handler's capability and scope checks of this actor on this target.
  datatype Step =
    | UpdateUser(actor: UserId, target: UserId, admin: Option<bool>, active: Option<bool>, permitted: bool)
    | UpdateEmployee(actor: UserId, target: UserId, status: Option<Status>, permitted: bool)
    | PatchAccount(actor: UserId, target: UserId, admin: Option<bool>, active: Option<bool>, hasEmail: bool)
    | Kill(actor: UserId, target: UserId)
    | Import(importer: Option<UserId>, rows: seq<Row>)
    | AddUser(user: UserId)

  function DoUpdateUser(us: Users, actor: UserId, target: UserId, admin: Option<bool>, active: Option<bool>,
      permitted: bool): Result<Users, Refusal>
  {
    if target !in us then Err(NotFound)
    else if !permitted then Err(Forbidden)
    else if admin.None? && active.None? then Err(Invalid)
    else
      var u := us[target];
      var first := if admin.Some? then Protect(us, actor, target, !admin.value) else None;
      if first.Some? then Err(first.value)
      else if admin == Some(true) && actor == target && !u.admin then Err(Forbidden)
      else
        var second := if u.admin && active == Some(false) then Protect(us, actor, target, true) else None;
        var removing := u.admin && (admin == Some(false) || active == Some(false));
        if second.Some? then Err(second.value)
        else if removing && !(actor in us && us[actor].admin) then Err(Forbidden)
        else if removing && |AdminUsers(us)| <= 1 then Err(LastAdmin)
        else Ok(Set(us, target, admin, active))
  }

  function DoUpdateEmployee(us: Users, actor: UserId, target: UserId, status: Option<Status>,
      permitted: bool): Result<Users, Refusal>
  {
    if target !in us then Err(NotFound)
    else if !permitted then Err(Forbidden)
    else
      var u := us[target];
      var identity := if u.admin then Protect(us, actor, target, false) else None;
      var leaving := status.Some? && status.value != Active && u.admin && u.active;
      var last := if leaving then Protect(us, actor, target, true) else None;
      if identity.Some? then Err(identity.value)
      else if last.Some? then Err(last.value)
      else if leaving && |ActiveAdmins(us)| <= 1 then Err(LastAdmin)
      else Ok(if status.Some? then us[target := u.(status := status.value)] else us)
  }

  function DoPatchAccount(us: Users, actor: UserId, target: UserId, admin: Option<bool>, active: Option<bool>,
      hasEmail: bool): Result<Users, Refusal>
  {
    if !ActingAdmin(us, actor) then Err(Forbidden)
    else if target !in us then Err(NotFound)
    else
      var u := us[target];
      var removing := u.admin && (admin == Some(false) || active == Some(false));
      var guard := if removing then Protect(us, actor, target, true) else None;
      if guard.Some? then Err(guard.value)
      else if admin == Some(true) && !u.admin && !hasEmail then Err(Invalid)
      else Ok(Set(us, target, admin, active))
  }

  function DoKill(us: Users, actor: UserId, target: UserId): Result<Users, Refusal> {
    if !ActingAdmin(us, actor) then Err(Forbidden)
    else if target !in us then Err(NotFound)
    else
      var guard := if us[target].admin then Protect(us, actor, target, true) else None;
      if guard.Some? then Err(guard.value) else Ok(Set(us, target, None, Some(false)))
  }

  // One row of the import, on the state the earlier rows were flushed to.
  function ImportRow(us: Users, actor: Option<UserId>, row: Row): Result<Users, Refusal> {
    if row.user !in us || !row.exited || !us[row.user].active then Ok(us)
    else if us[row.user].admin then
      if actor.None? then Err(Forbidden)
      else
        var guard := Protect(us, actor.value, row.user, true);
        if guard.Some? then Err(guard.value) else Ok(Set(us, row.user, None, Some(false)))
    else Ok(Set(us, row.user, None, Some(false)))
  }

  function ImportRows(us: Users, actor: Option<UserId>, rows: seq<Row>): Result<Users, Refusal> {
    if rows == [] then Ok(us)
    else
      match ImportRows(us, actor, rows[..|rows| - 1])
      case Err(e) => Err(e)
      case Ok(mid) => ImportRow(mid, actor, rows[|rows| - 1])
  }

  function Outcome(us: Users, step: Step): Result<Users, Refusal> {
    match step
    case UpdateUser(actor, target, admin, active, permitted) =>
      DoUpdateUser(us, actor, target, admin, active, permitted)
    case UpdateEmployee(actor, target, status, permitted) => DoUpdateEmployee(us, actor, target, status, permitted)
    case PatchAccount(actor, target, admin, active, hasEmail) =>
      DoPatchAccount(us, actor, target, admin, active, hasEmail)
    case Kill(actor, target) => DoKill(us, actor, target)
    case Import(importer, rows) => ImportRows(us, importer, rows)
    case AddUser(u) => if u in us then Err(Invalid) else Ok(us[u := User(false, true, Active)])
  }

  function RefusalOf(r: Result<Users, Refusal>): Option<Refusal> {
    if r.Err? then Some(r.error) else None
  }

  // A refused request is rolled back whole.
  function Next(us: Users, step: Step): Users {
    match Outcome(us, step)
    case Ok(after) => after
    case Err(_) => us
  }

  function Run(us: Users, steps: seq<Step>): Users {
    if steps == [] then us else Next(Run(us, steps[..|steps| - 1]), steps[|steps| - 1])
  }

  // ---------------------------------------------------------------- an administrator always remains

  lemma AnotherRemains(us: Users, after: Users, target: UserId)
    requires |ActiveAdmins(us)| > 1 && after.Keys == us.Keys
    requires forall u | u in us && u != target :: after[u] == us[u]
    ensures ActiveAdmins(after) != {}
  {
    var others := ActiveAdmins(us) - {target};
    if others == {} {
      assert ActiveAdmins(us) <= {target};
      Subset(ActiveAdmins(us), {target});
    }
    var u :| u in others;
    assert u in ActiveAdmins(after);
  }

  lemma Subset(a: set<UserId>, b: set<UserId>)
    requires a <= b
    ensures |a| <= |b|
  {
    if a != {} {
      var x :| x in a;
      Subset(a - {x}, b - {x});
    }
  }

  // Changing one person keeps an administrator unless that person was one and stops being one.
  lemma OnePersonChanged(us: Users, after: Users, target: UserId)
    requires ActiveAdmins(us) != {} && after.Keys == us.Keys
    requires forall u | u in us && u != target :: after[u] == us[u]
    requires |ActiveAdmins(us)| > 1 || target !in ActiveAdmins(us) || target in ActiveAdmins(after)
    ensures ActiveAdmins(after) != {}
  {
    if |ActiveAdmins(us)| > 1 {
      AnotherRemains(us, after, target);
    } else if target in ActiveAdmins(after) {
    } else {
      var u :| u in ActiveAdmins(us);
      assert u in ActiveAdmins(after);
    }
  }

  lemma RowKeepsAnAdmin(us: Users, actor: Option<UserId>, row: Row)
    requires ActiveAdmins(us) != {} && ImportRow(us, actor, row).Ok?
    ensures ActiveAdmins(ImportRow(us, actor, row).value) != {}
  {
    OnePersonChanged(us, ImportRow(us, actor, row).value, row.user);
  }

  // A sheet that exits several administrators is refused before it could exit the last one.
  lemma {:induction false} ImportKeepsAnAdmin(us: Users, actor: Option<UserId>, rows: seq<Row>)
    requires ActiveAdmins(us) != {} && ImportRows(us, actor, rows).Ok?
    ensures ActiveAdmins(ImportRows(us, actor, rows).value) != {}
  {
    if rows != [] {
      ImportKeepsAnAdmin(us, actor, rows[..|rows| - 1]);
      RowKeepsAnAdmin(ImportRows(us, actor, rows[..|rows| - 1]).value, actor, rows[|rows| - 1]);
    }
  }

  lemma StepKeepsAnAdmin(us: Users, step: Step)
    requires ActiveAdmins(us) != {}
    ensures ActiveAdmins(Next(us, step)) != {}
  {
    hide ActiveAdmins, AdminUsers, ActingAdmin, ImportRows;
    if Outcome(us, step).Ok? {
      match step
      case UpdateUser(actor, target, admin, active, permitted) => StillAdmin(us, target, Next(us, step));
      case UpdateEmployee(actor, target, status, permitted) => StillAdmin(us, target, Next(us, step));
      case PatchAccount(actor, target, admin, active, hasEmail) => StillAdmin(us, target, Next(us, step));
      case Kill(actor, target) => StillAdmin(us, target, Next(us, step));
      case Import(importer, rows) => ImportKeepsAnAdmin(us, importer, rows);
      case AddUser(u) => Added(us, u, Next(us, step));
    }
  }

  // The shape all four handlers share: unless several administrators are active, an active one is
  // neither stripped, switched off nor moved out.
  lemma StillAdmin(us: Users, target: UserId, after: Users)
    requires ActiveAdmins(us) != {} && target in us && after.Keys == us.Keys
    requires forall u | u in us && u != target :: after[u] == us[u]
    requires |ActiveAdmins(us)| > 1 || (us[target].admin && us[target].active ==>
               after[target].admin && after[target].active
                 && (us[target].status == Active ==> after[target].status == Active))
    ensures ActiveAdmins(after) != {}
  {
    OnePersonChanged(us, after, target);
  }

  lemma Added(us: Users, u: UserId, after: Users)
    requires ActiveAdmins(us) != {} && u !in us && after.Keys == us.Keys + {u}
    requires forall k | k in us :: after[k] == us[k]
    ensures ActiveAdmins(after) != {}
  {
    var a :| a in ActiveAdmins(us);
    assert a in ActiveAdmins(after);
  }

  // Starting with an administrator who can sign in, one remains in every run.
  lemma {:induction false} AnAdminAlwaysRemains(us: Users, steps: seq<Step>)
    requires ActiveAdmins(us) != {}
    ensures ActiveAdmins(Run(us, steps)) != {}
  {
    if steps != [] {
      hide ActiveAdmins, Next;
      AnAdminAlwaysRemains(us, steps[..|steps| - 1]);
      StepKeepsAnAdmin(Run(us, steps[..|steps| - 1]), steps[|steps| - 1]);
    }
  }

  // Making, unmaking, switching or moving an administrator takes an acting administrator, except that
  // update_user may switch one back on.
  lemma AdministratorsAreGuarded(us: Users, step: Step, u: UserId)
    requires step.UpdateUser? || step.UpdateEmployee? || step.PatchAccount? || step.Kill?
    requires u in us && u in Next(us, step) && Next(us, step)[u] != us[u] && (us[u].admin || Next(us, step)[u].admin)
    ensures ActingAdmin(us, step.actor)
            || (step.UpdateUser? && !us[u].active && Next(us, step)[u] == us[u].(active := true))
  {
    hide ActiveAdmins, AdminUsers;
    match step
    case UpdateUser(actor, target, admin, active, permitted) => assert u == target;
    case UpdateEmployee(actor, target, status, permitted) => assert u == target;
    case _ =>
  }

  // ---------------------------------------------------------------- what an import may do

  function ExitedIn(rows: seq<Row>): set<UserId> {
    set i | 0 <= i < |rows| && rows[i].exited :: rows[i].user
  }

  function SwitchOff(us: Users, gone: set<UserId>): Users {
    map u | u in us :: if u in gone then us[u].(active := false) else us[u]
  }

  // Row `i` exits an administrator whose account is still on when the sheet gets there.
  ghost predicate Strikes(us: Users, rows: seq<Row>, i: int) {
    && 0 <= i < |rows| && rows[i].exited && rows[i].user in us
    && us[rows[i].user].admin && us[rows[i].user].active && rows[i].user !in ExitedIn(rows[..i])
  }

  // The importer may not change administrators at row `i`: it is the command line, never was one that is
  // on, or went off on an earlier row of its own sheet.
  ghost predicate Powerless(us: Users, importer: Option<UserId>, rows: seq<Row>, i: int)
    requires 0 <= i <= |rows|
  {
    importer.None? || !ActingAdmin(us, importer.value) || importer.value in ExitedIn(rows[..i])
  }

  // Row `i` is refused when the sheet gets there.
  ghost predicate Stops(us: Users, importer: Option<UserId>, rows: seq<Row>, i: int) {
    Strikes(us, rows, i)
    && (Powerless(us, importer, rows, i) || |ActiveAdmins(us) - ExitedIn(rows[..i])| <= 1)
  }

  lemma Single(s: set<UserId>, x: UserId)
    requires x in s
    ensures |s| <= 1 <==> s == {x}
  {
    if y :| y in s && y != x {
      Subset({x, y}, s);
    }
  }

  lemma ExitedOneMore(rows: seq<Row>, n: int)
    requires 0 <= n < |rows|
    ensures ExitedIn(rows[..n + 1]) == ExitedIn(rows[..n]) + (if rows[n].exited then {rows[n].user} else {})
  {
    var more, front := rows[..n + 1], rows[..n];
    assert forall i | 0 <= i < n :: more[i] == front[i];
    forall u ensures u in ExitedIn(more) <==> u in ExitedIn(front) + (if rows[n].exited then {rows[n].user} else {}) {
      if u in ExitedIn(front) {
        var i :| 0 <= i < n && front[i].exited && front[i].user == u;
        assert more[i].user == u;
      }
      assert more[n] == rows[n];
    }
  }

  lemma SwitchedOffAdmins(us: Users, gone: set<UserId>)
    ensures ActiveAdmins(SwitchOff(us, gone)) == ActiveAdmins(us) - gone
  {}

  lemma SwitchOneMore(us: Users, gone: set<UserId>, u: UserId)
    ensures u in us ==> SwitchOff(us, gone + {u}) == SwitchOff(us, gone)[u := us[u].(active := false)]
    ensures u !in us ==> SwitchOff(us, gone + {u}) == SwitchOff(us, gone)
  {}

  // One more row, after a front that went through and switched off `gone`.
  lemma RowOutcome(us: Users, importer: Option<UserId>, row: Row, gone: set<UserId>)
    ensures ImportRow(SwitchOff(us, gone), importer, row)
            == if && row.exited && row.user in us && us[row.user].admin && us[row.user].active && row.user !in gone then
                 if importer.None? || !ActingAdmin(us, importer.value) || importer.value in gone then Err(Forbidden)
                 else if |ActiveAdmins(us) - gone| <= 1 then Err(LastAdmin)
                 else Ok(SwitchOff(us, gone + {row.user}))
               else Ok(SwitchOff(us, if row.exited then gone + {row.user} else gone))
  {
    var mid := SwitchOff(us, gone);
    SwitchedOffAdmins(us, gone);
    SwitchOneMore(us, gone, row.user);
    assert row.user in us && !mid[row.user].active ==> mid[row.user := us[row.user].(active := false)] == mid;
    hide ActiveAdmins;
  }

  lemma ImportOneMore(us: Users, importer: Option<UserId>, rows: seq<Row>, n: int)
    requires 0 <= n < |rows|
    ensures ImportRow(SwitchOff(us, ExitedIn(rows[..n])), importer, rows[n])
            == if Stops(us, importer, rows, n)
               then Err(if Powerless(us, importer, rows, n) then Forbidden else LastAdmin)
               else Ok(SwitchOff(us, ExitedIn(rows[..n + 1])))
  {
    ExitedOneMore(rows, n);
    hide ExitedIn, ActiveAdmins, ActingAdmin, ImportRow, SwitchOff;
    RowOutcome(us, importer, rows[n], ExitedIn(rows[..n]));
    assert ExitedIn(rows[..n]) + {} == ExitedIn(rows[..n]);
  }

  lemma FrontStops(us: Users, importer: Option<UserId>, rows: seq<Row>, n: int, i: int)
    requires 0 <= n <= |rows|
    ensures Stops(us, importer, rows[..n], i) <==> i < n && Stops(us, importer, rows, i)
  {
    hide ActiveAdmins, ActingAdmin, ExitedIn;
    if 0 <= i < n {
      assert rows[..n][..i] == rows[..i];
    }
  }

  lemma {:induction false} SheetGoesThrough(us: Users, importer: Option<UserId>, rows: seq<Row>)
    requires forall i | 0 <= i < |rows| :: !Stops(us, importer, rows, i)
    ensures ImportRows(us, importer, rows) == Ok(SwitchOff(us, ExitedIn(rows)))
  {
    hide SwitchOff, ImportRow, ExitedIn, Stops, Powerless;
    if rows == [] {
      NobodyExits(us);
    } else {
      var n := |rows| - 1;
      assert rows[..n + 1] == rows;
      forall i | 0 <= i < n ensures !Stops(us, importer, rows[..n], i) {
        FrontStops(us, importer, rows, n, i);
      }
      SheetGoesThrough(us, importer, rows[..n]);
      ImportOneMore(us, importer, rows, n);
    }
  }

  lemma SheetStops(us: Users, importer: Option<UserId>, rows: seq<Row>, i: int)
    requires 0 <= i < |rows| && Stops(us, importer, rows, i)
    requires forall j | 0 <= j < i :: !Stops(us, importer, rows, j)
    ensures ImportRows(us, importer, rows) == Err(if Powerless(us, importer, rows, i) then Forbidden else LastAdmin)
  {
    hide SwitchOff, ImportRow, ExitedIn, Stops, Powerless;
    forall j | 0 <= j < i ensures !Stops(us, importer, rows[..i], j) {
      FrontStops(us, importer, rows, i, j);
    }
    SheetGoesThrough(us, importer, rows[..i]);
    ImportOneMore(us, importer, rows, i);
    assert rows[..i + 1][..i] == rows[..i];
    ImportFails(us, importer, rows, i + 1);
  }

  // Whoever imports whatever sheet: the first row it stops at refuses it whole, with Forbidden when the
  // importer has no power there (any more) and with LastAdmin otherwise; a sheet that stops nowhere
  // switches off exactly the exited rows.
  lemma ImportOutcome(us: Users, importer: Option<UserId>, rows: seq<Row>)
    ensures (forall i | 0 <= i < |rows| :: !Stops(us, importer, rows, i)) ==>
              ImportRows(us, importer, rows) == Ok(SwitchOff(us, ExitedIn(rows)))
    ensures forall i | && 0 <= i < |rows| && Stops(us, importer, rows, i)
                       && forall j | 0 <= j < i :: !Stops(us, importer, rows, j) ::
              ImportRows(us, importer, rows) == Err(if Powerless(us, importer, rows, i) then Forbidden else LastAdmin)
  {
    hide SwitchOff, ImportRows, ExitedIn, Stops, Powerless;
    if forall i | 0 <= i < |rows| :: !Stops(us, importer, rows, i) {
      SheetGoesThrough(us, importer, rows);
    }
    forall i | 0 <= i < |rows| && Stops(us, importer, rows, i) && forall j | 0 <= j < i :: !Stops(us, importer, rows, j)
      ensures ImportRows(us, importer, rows) == Err(if Powerless(us, importer, rows, i) then Forbidden else LastAdmin)
    {
      SheetStops(us, importer, rows, i);
    }
  }

  lemma {:induction false} FirstStop(us: Users, importer: Option<UserId>, rows: seq<Row>, k: int) returns (i: int)
    requires 0 <= k < |rows| && Stops(us, importer, rows, k)
    ensures 0 <= i <= k && Stops(us, importer, rows, i) && forall j | 0 <= j < i :: !Stops(us, importer, rows, j)
    decreases k
  {
    hide Stops;
    i := k;
    if j :| 0 <= j < k && Stops(us, importer, rows, j) {
      i := FirstStop(us, importer, rows, j);
    }
  }

  // Row `i` is where the guard stops an importer who stays: of those who can sign in only they are left.
  ghost predicate Blocked(us: Users, actor: UserId, rows: seq<Row>, i: int) {
    Strikes(us, rows, i) && ActiveAdmins(us) - ExitedIn(rows[..i]) == {actor}
  }

  lemma ExitedLess(rows: seq<Row>, i: int)
    requires 0 <= i <= |rows|
    ensures ExitedIn(rows[..i]) <= ExitedIn(rows)
  {
    assert forall j | 0 <= j < i :: rows[..i][j] == rows[j];
  }

  // An administrator who can sign in, and is not on the sheet as exited, imports it: the sheet is
  // refused, whole, exactly when some row is blocked; otherwise exactly the exited rows are switched off.
  lemma ImportByAnotherAdmin(us: Users, actor: UserId, rows: seq<Row>)
    requires actor in ActiveAdmins(us) && actor !in ExitedIn(rows)
    ensures ImportRows(us, Some(actor), rows)
            == if exists i :: Blocked(us, actor, rows, i) then Err(LastAdmin) else Ok(SwitchOff(us, ExitedIn(rows)))
  {
    hide Blocked, Stops, Powerless, ActiveAdmins, ExitedIn, ImportRows, SwitchOff;
    forall i ensures Blocked(us, actor, rows, i) <==> Stops(us, Some(actor), rows, i) && 0 <= i < |rows| {
      BlockedStops(us, actor, rows, i);
    }
    if k :| Blocked(us, actor, rows, k) {
      var i := FirstStop(us, Some(actor), rows, k);
      StaysPowerful(us, actor, rows, i);
      SheetStops(us, Some(actor), rows, i);
    } else {
      SheetGoesThrough(us, Some(actor), rows);
    }
  }

  lemma StaysPowerful(us: Users, actor: UserId, rows: seq<Row>, i: int)
    requires actor in ActiveAdmins(us) && actor !in ExitedIn(rows) && Stops(us, Some(actor), rows, i)
    ensures 0 <= i < |rows| && !Powerless(us, Some(actor), rows, i)
  {
    hide ExitedIn;
    ExitedLess(rows, i);
  }

  lemma BlockedStops(us: Users, actor: UserId, rows: seq<Row>, i: int)
    requires actor in ActiveAdmins(us) && actor !in ExitedIn(rows)
    ensures Blocked(us, actor, rows, i) <==> Stops(us, Some(actor), rows, i) && 0 <= i < |rows|
  {
    hide ExitedIn;
    assert ActingAdmin(us, actor);
    hide ActiveAdmins, ActingAdmin;
    if Strikes(us, rows, i) {
      ExitedLess(rows, i);
      Single(ActiveAdmins(us) - ExitedIn(rows[..i]), actor);
    }
  }

  // An importer whose own exit went through is, from there on, refused at the next administrator.
  lemma ImportExitingOneself(us: Users, actor: UserId, rows: seq<Row>, own: int, next: int)
    requires actor in us && 0 <= own < next < |rows| && rows[own] == Row(actor, true)
    requires Strikes(us, rows, next) && forall i | 0 <= i < next :: !Stops(us, Some(actor), rows, i)
    ensures ImportRows(us, Some(actor), rows) == Err(Forbidden)
  {
    hide Strikes, ImportRows, ActingAdmin, ActiveAdmins;
    assert actor in ExitedIn(rows[..next]) by {
      assert rows[..next][own] == rows[own];
    }
    hide ExitedIn;
    assert Powerless(us, Some(actor), rows, next);
    SheetStops(us, Some(actor), rows, next);
  }

  lemma NobodyExits(us: Users)
    ensures SwitchOff(us, ExitedIn([])) == us
  {}

  // Such a sheet can be refused although an administrator would have remained.
  const DORMANT: Users := map[1 := User(true, true, Active), 2 := User(true, true, Suspended)]

  lemma DormantAdminCannotBeExited()
    ensures ActiveAdmins(DORMANT) == {1}
    ensures ImportRow(DORMANT, Some(1), Row(2, true)) == Err(LastAdmin)
    ensures ActiveAdmins(SwitchOff(DORMANT, {2})) == {1}
  {
    assert ActiveAdmins(DORMANT) == {1};
    assert ActiveAdmins(SwitchOff(DORMANT, {2})) == {1};
  }

  // ---------------------------------------------------------------- when the guard refuses too much

  // An administrator whose account is on but whose employment is not.
  predicate Dormant(us: Users, target: UserId) {
    target in us && us[target].admin && us[target].active && us[target].status != Active
  }

  // The last-administrator refusal although one would remain: exactly when the target is dormant and
  // exactly one account can sign in.
  lemma NeedlessRefusalIff(us: Users, actor: UserId, target: UserId)
    requires target in us
    ensures Protect(us, actor, target, true) == Some(LastAdmin) && ActiveAdmins(us) - {target} != {}
            <==> ActingAdmin(us, actor) && Dormant(us, target) && |ActiveAdmins(us)| == 1
  {
    if target in ActiveAdmins(us) {
      Single(ActiveAdmins(us), target);
    } else {
      assert ActiveAdmins(us) - {target} == ActiveAdmins(us);
    }
  }

  // What the single-account handlers would write without the guard.
  function Requested(us: Users, step: Step): Users {
    match step
    case UpdateUser(_, target, admin, active, _) => if target in us then Set(us, target, admin, active) else us
    case PatchAccount(_, target, admin, active, _) => if target in us then Set(us, target, admin, active) else us
    case UpdateEmployee(_, target, status, _) =>
      if target in us && status.Some? then us[target := us[target].(status := status.value)] else us
    case Kill(_, target) => if target in us then Set(us, target, None, Some(false)) else us
    case _ => us
  }

  // The request takes the account of an administrator away: the flag, the account or the employment.
  predicate Takes(step: Step) {
    match step
    case UpdateUser(_, _, admin, active, permitted) => permitted && (admin == Some(false) || active == Some(false))
    case PatchAccount(_, _, admin, active, _) => admin == Some(false) || active == Some(false)
    case UpdateEmployee(_, _, status, permitted) => permitted && status.Some? && status.value != Active
    case Kill(_, _) => true
    case _ => false
  }

  lemma RequestedAdmins(us: Users, step: Step)
    requires step.UpdateUser? || step.PatchAccount? || step.UpdateEmployee? || step.Kill?
    requires Takes(step) && step.target in us
    ensures ActiveAdmins(Requested(us, step)) == ActiveAdmins(us) - {step.target}
  {}

  // An administrator whose account is off.
  predicate Off(us: Users, target: UserId) {
    target in us && us[target].admin && !us[target].active
  }

  lemma LastAdminMeans(us: Users, step: Step)
    requires step.UpdateUser? || step.PatchAccount? || step.UpdateEmployee? || step.Kill?
    requires step.target in us
    ensures Outcome(us, step) == Err(LastAdmin)
            <==> && Takes(step) && ActingAdmin(us, step.actor) && us[step.target].admin
                 && (|| (us[step.target].active && |ActiveAdmins(us)| <= 1)
                     || (step.UpdateUser? && |AdminUsers(us)| <= 1))
  {
    hide ActiveAdmins, AdminUsers, Set;
  }

  // All four handlers share it: each refuses a harmless request in the name of the last administrator
  // exactly when it takes a dormant administrator while one account can sign in. update_user counts a
  // second time, and so also refuses to touch one whose account is off while only one is on.
  lemma HandlerRefusesTooMuchIff(us: Users, step: Step)
    requires step.UpdateUser? || step.PatchAccount? || step.UpdateEmployee? || step.Kill?
    ensures Outcome(us, step) == Err(LastAdmin) && ActiveAdmins(Requested(us, step)) != {}
            <==> && Takes(step) && ActingAdmin(us, step.actor)
                 && (|| (Dormant(us, step.target) && |ActiveAdmins(us)| == 1)
                     || (&& step.UpdateUser? && Off(us, step.target)
                         && |AdminUsers(us)| == 1 && ActiveAdmins(us) != {}))
  {
    hide ActiveAdmins, AdminUsers, Requested, ActingAdmin;
    if step.target in us {
      LastAdminMeans(us, step);
      hide Outcome;
      AdminsAreUsers(us);
      TargetAmongAdmins(us, step.target);
      if Takes(step) {
        RequestedAdmins(us, step);
      }
    }
  }

  lemma TargetAmongAdmins(us: Users, target: UserId)
    requires target in us
    ensures target in ActiveAdmins(us) <==> us[target].admin && us[target].active && us[target].status == Active
    ensures target !in ActiveAdmins(us) ==> ActiveAdmins(us) - {target} == ActiveAdmins(us)
    ensures ActiveAdmins(us) - {target} != {} && target in ActiveAdmins(us) ==> |ActiveAdmins(us)| > 1
  {
    if target in ActiveAdmins(us) {
      Single(ActiveAdmins(us), target);
    }
  }

  lemma AdminsAreUsers(us: Users)
    ensures |ActiveAdmins(us)| <= |AdminUsers(us)|
  {
    Subset(ActiveAdmins(us), AdminUsers(us));
  }

  // ---------------------------------------------------------------- every answer, and what it leaves

  predicate ForAdminsOnly(us: Users, step: Step)
    requires (step.UpdateUser? || step.UpdateEmployee?) && step.target in us
  {
    match step
    case UpdateUser(_, target, admin, active, _) => admin.Some? || (us[target].admin && active == Some(false))
    case UpdateEmployee(_, target, _, _) => us[target].admin
  }

  // What the request asks for, said of everybody: the target with these flags, the others as they were.
  ghost predicate AsAsked(us: Users, after: Users, target: UserId, admin: Option<bool>, active: Option<bool>,
      status: Option<Status>)
  {
    && after.Keys == us.Keys
    && (forall u | u in us && u != target :: after[u] == us[u])
    && target in us
    && after[target].admin == (if admin == None then us[target].admin else admin.value)
    && after[target].active == (if active == None then us[target].active else active.value)
    && after[target].status == (if status == None then us[target].status else status.value)
  }

  // update_user and update_employee: nobody there; not permitted, or touching an administrator without
  // acting as one; nothing asked for; the last administrator (LastAdminMeans). Whatever is left is done.
  lemma UpdateAnswers(us: Users, step: Step)
    requires step.UpdateUser? || step.UpdateEmployee?
    ensures var (r, target) := (Outcome(us, step), step.target);
            var acting := step.actor in us && us[step.actor].admin && us[step.actor].active;
            && (r == Err(NotFound) <==> target !in us)
            && (r == Err(Forbidden) <==>
                  target in us && (!step.permitted || (ForAdminsOnly(us, step) && !acting)))
            && (r == Err(Invalid) <==>
                  target in us && step.permitted && step.UpdateUser? && step.admin == None && step.active == None)
    ensures Outcome(us, step).Ok? ==>
              AsAsked(us, Outcome(us, step).value, step.target,
                      if step.UpdateUser? then step.admin else None, if step.UpdateUser? then step.active else None,
                      if step.UpdateEmployee? then step.status else None)
  {
    hide ActiveAdmins, AdminUsers;
  }

  // patch_account and kill_user: not acting as an administrator; nobody there; an administrator's flag
  // for an account without an address; the last administrator. Whatever is left is done: a kill switches
  // the account off.
  lemma AccountAnswers(us: Users, step: Step)
    requires step.PatchAccount? || step.Kill?
    ensures var (r, target) := (Outcome(us, step), step.target);
            var acting := step.actor in us && us[step.actor].admin && us[step.actor].active;
            && (r == Err(Forbidden) <==> !acting)
            && (r == Err(NotFound) <==> acting && target !in us)
            && (r == Err(Invalid) <==>
                  && acting && target in us
                  && step.PatchAccount? && step.admin == Some(true) && !us[target].admin && !step.hasEmail)
    ensures Outcome(us, step).Ok? ==>
              AsAsked(us, Outcome(us, step).value, step.target, if step.PatchAccount? then step.admin else None,
                      if step.PatchAccount? then step.active else Some(false), None)
  {
    hide ActiveAdmins, AdminUsers;
  }

  // A new account is on, and nobody's administrator; an id that is taken changes nothing.
  lemma AddUserMeans(us: Users, u: UserId)
    ensures var after := Next(us, AddUser(u));
            && after.Keys == us.Keys + {u} && (forall k | k in us :: after[k] == us[k])
            && (u !in us ==> !after[u].admin && after[u].active && after[u].status == Active)
  {}

  // ---------------------------------------------------------------- the handlers

  class Directory {
    var users: Users

    constructor (us: Users)
      ensures users == us
    {
      users := us;
    }

    // Let through, the actor is an administrator who is on, and taking an administrator who is on
    // leaves another who can sign in; refused for the last one, the actor is one, but nobody else could
    // be counted on.
    method ProtectedAdminChange(actor: UserId, target: UserId, removing: bool) returns (refusal: Option<Refusal>)
      requires target in users
      ensures refusal == Protect(users, actor, target, removing)
      ensures refusal.None? ==> ActingAdmin(users, actor)
      ensures refusal.None? && removing && users[target].admin && users[target].active ==>
          ActiveAdmins(users) - {target} != {}
      ensures refusal == Some(LastAdmin) ==>
          ActingAdmin(users, actor) && removing
          && forall u, v | u in ActiveAdmins(users) && v in ActiveAdmins(users) :: u == v
    {
      if actor !in users || !users[actor].admin || !users[actor].active {
        return Some(Forbidden);
      }
      if removing && users[target].admin && users[target].active {
        var count := |ActiveAdmins(users)|;
        if count <= 1 {
          forall u, v | u in ActiveAdmins(users) && v in ActiveAdmins(users) ensures u == v {
            Single(ActiveAdmins(users), u);
          }
          return Some(LastAdmin);
        }
        if ActiveAdmins(users) - {target} == {} {
          Subset(ActiveAdmins(users), {target});
        }
      }
      return None;
    }

    method UpdateUser(actor: UserId, target: UserId, admin: Option<bool>, active: Option<bool>, permitted: bool)
      returns (refusal: Option<Refusal>)
      modifies this
      ensures users == Next(old(users), Step.UpdateUser(actor, target, admin, active, permitted))
      ensures refusal == RefusalOf(Outcome(old(users), Step.UpdateUser(actor, target, admin, active, permitted)))
    {
      if target !in users { return Some(NotFound); }
      if !permitted { return Some(Forbidden); }
      if admin.None? && active.None? { return Some(Invalid); }
      if admin.Some? {
        refusal := ProtectedAdminChange(actor, target, !admin.value);
        if refusal.Some? { return; }
        if actor == target && admin.value && !users[target].admin { return Some(Forbidden); }
      }
      if users[target].admin && active == Some(false) {
        refusal := ProtectedAdminChange(actor, target, true);
        if refusal.Some? { return; }
      }
      var removing := users[target].admin && (admin == Some(false) || active == Some(false));
      if removing && !(actor in users && users[actor].admin) { return Some(Forbidden); }
      if removing && |AdminUsers(users)| <= 1 { return Some(LastAdmin); }
      if admin.Some? && admin.value != users[target].admin {
        users := users[target := users[target].(admin := admin.value)];
      }
      if active.Some? {
        users := users[target := users[target].(active := active.value)];
      }
      return None;
    }

    method UpdateEmployee(actor: UserId, target: UserId, status: Option<Status>, permitted: bool)
      returns (refusal: Option<Refusal>)
      modifies this
      ensures users == Next(old(users), Step.UpdateEmployee(actor, target, status, permitted))
      ensures refusal == RefusalOf(Outcome(old(users), Step.UpdateEmployee(actor, target, status, permitted)))
    {
      if target !in users { return Some(NotFound); }
      if !permitted { return Some(Forbidden); }
      if users[target].admin {
        refusal := ProtectedAdminChange(actor, target, false);
        if refusal.Some? { return; }
      }
      if status.Some? && status.value != Active && users[target].admin && users[target].active {
        refusal := ProtectedAdminChange(actor, target, true);
        if refusal.Some? { return; }
        if |ActiveAdmins(users)| <= 1 { return Some(LastAdmin); }
      }
      if status.Some? {
        users := users[target := users[target].(status := status.value)];
      }
      return None;
    }

    method PatchAccount(actor: UserId, target: UserId, admin: Option<bool>, active: Option<bool>, hasEmail: bool)
      returns (refusal: Option<Refusal>)
      modifies this
      ensures users == Next(old(users), Step.PatchAccount(actor, target, admin, active, hasEmail))
      ensures refusal == RefusalOf(Outcome(old(users), Step.PatchAccount(actor, target, admin, active, hasEmail)))
    {
      if actor !in users || !users[actor].admin || !users[actor].active { return Some(Forbidden); }
      if target !in users { return Some(NotFound); }
      if users[target].admin && (admin == Some(false) || active == Some(false)) {
        refusal := ProtectedAdminChange(actor, target, true);
        if refusal.Some? { return; }
      }
      if admin.Some? {
        if admin.value && !users[target].admin {
          if !hasEmail { return Some(Invalid); }
          users := users[target := users[target].(admin := true)];
        } else if !admin.value {
          users := users[target := users[target].(admin := false)];
        }
      }
      if active.Some? {
        users := users[target := users[target].(active := active.value)];
      }
      return None;
    }

    method KillUser(actor: UserId, target: UserId) returns (refusal: Option<Refusal>)
      modifies this
      ensures users == Next(old(users), Step.Kill(actor, target))
      ensures refusal == RefusalOf(Outcome(old(users), Step.Kill(actor, target)))
    {
      if actor !in users || !users[actor].admin || !users[actor].active { return Some(Forbidden); }
      if target !in users { return Some(NotFound); }
      if users[target].admin {
        refusal := ProtectedAdminChange(actor, target, true);
        if refusal.Some? { return; }
      }
      users := users[target := users[target].(active := false)];
      return None;
    }

    // The account part of run_import. Each row is flushed before the next is read; a refusal rolls
    // every row back.
    method ImportPeople(importer: Option<UserId>, rows: seq<Row>) returns (refusal: Option<Refusal>)
      modifies this
      ensures users == Next(old(users), Step.Import(importer, rows))
      ensures refusal == RefusalOf(Outcome(old(users), Step.Import(importer, rows)))
    {
      var savepoint := users;
      for i := 0 to |rows|
        invariant ImportRows(old(users), importer, rows[..i]) == Ok(users)
        invariant savepoint == old(users)
      {
        assert rows[..i + 1][..i] == rows[..i];
        var row := rows[i];
        if row.exited && row.user in users && users[row.user].active {
          if users[row.user].admin {
            if importer.None? {
              refusal := Some(Forbidden);
            } else {
              refusal := ProtectedAdminChange(importer.value, row.user, true);
            }
            if refusal.Some? {
              ImportFails(old(users), importer, rows, i + 1);
              users := savepoint;
              return;
            }
          }
          users := users[row.user := users[row.user].(active := false)];
        }
      }
      assert rows[..|rows|] == rows;
      return None;
    }
  }

  // The first refused row refuses the sheet.
  lemma {:induction false} ImportFails(us: Users, actor: Option<UserId>, rows: seq<Row>, n: int)
    requires 0 <= n <= |rows| && ImportRows(us, actor, rows[..n]).Err?
    ensures ImportRows(us, actor, rows) == ImportRows(us, actor, rows[..n])
  {
    if n == |rows| {
      assert rows[..n] == rows;
    } else {
      var front := rows[..|rows| - 1];
      assert front[..n] == rows[..n];
      ImportFails(us, actor, front, n);
    }
  }
}
