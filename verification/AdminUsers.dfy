/**
 The platform user table and the guard that keeps at least one administrator able to sign in
 (internal/admin_users_handlers.go). Besides enabled administrators in the table there is the
 fallback account of the runtime configuration, which works as long as no row bears its name.
 */
module AdminUsers {
  import opened Wrappers
  import opened GoStrings

  const ADMIN := "admin"
  const VIEWER := "viewer"

  datatype Row = Row(username: string, email: string, hash: string, role: string, disabled: int,
                     permissions: Option<string>, multi: int, ips: string)

  // The table by primary key, with the next value of its AUTO_INCREMENT column
  datatype Table = Table(rows: map<int, Row>, nextId: int)

  // What surrounds the handlers: the configured name, the table's collation (names are equal when
  // their keys are), Go's EqualFold, the password hash and the two validators.
  datatype Site = Site(dashboardUser: string, key: string -> string, equalFold: (string, string) -> bool,
                       hash: string -> string, permissionsOk: string -> bool, ipsOk: string -> bool)

  // expectAdminName
  function Expected(site: Site): string {
    var u := TrimSpace(site.dashboardUser);
    if u == "" then "admin" else u
  }

  predicate IsEnabledAdmin(r: Row) { r.role == ADMIN && r.disabled == 0 }

  function EnabledAdmins(rows: map<int, Row>): set<int> {
    set id | id in rows && IsEnabledAdmin(rows[id])
  }

  // runtimeAdminFallbackInEffect
  predicate Fallback(site: Site, rows: map<int, Row>) {
    forall id :: id in rows ==> site.key(rows[id].username) != site.key(Expected(site))
  }

  // Somebody can still sign in as an administrator.
  predicate HasAccess(site: Site, rows: map<int, Row>) {
    (exists id :: id in rows && IsEnabledAdmin(rows[id])) || Fallback(site, rows)
  }

  // adminChangeRemovesLastAccess: the count that the handlers consult
  function RemovesLastAccess(site: Site, rows: map<int, Row>): bool {
    |EnabledAdmins(rows)| + (if Fallback(site, rows) then 1 else 0) <= 1
  }

  // The table's UNIQUE index on the user name
  ghost predicate Valid(site: Site, t: Table) {
    (forall i, j :: i in t.rows && j in t.rows && site.key(t.rows[i].username) == site.key(t.rows[j].username) ==> i == j) &&
    (forall i :: i in t.rows ==> i < t.nextId)
  }

  datatype NewUser = NewUser(username: string, email: string, password: string, role: string,
                             permissions: Option<string>, ips: Option<string>, multi: Option<bool>)

  datatype Edit = Edit(email: Option<string>, password: Option<string>, role: Option<string>, disabled: Option<bool>,
                       permissions: Option<string>, ips: Option<string>, multi: Option<bool>)

  datatype Request =
    | Create(user: NewUser)
    | Update(id: string, edit: Edit)
    | Delete(id: string, operator: Option<string>)

  datatype Outcome =
    | Done | BadName | BadPassword | BadRole | BadPermissions | BadIps
    | Duplicate | BadId | NotFound | LastAdmin | OwnAccount

  // ---------- the requests as functions ----------

  predicate NameTaken(site: Site, rows: map<int, Row>, name: string) {
    exists id :: id in rows && site.key(rows[id].username) == site.key(name)
  }

  function RoleOrViewer(role: string): string {
    if TrimSpace(role) == "" then VIEWER else TrimSpace(role)
  }

  function Permissions(p: Option<string>): Option<string> {
    if p.None? || TrimSpace(p.value) == "" then None else Some(TrimSpace(p.value))
  }

  function NewRow(site: Site, user: NewUser): Row {
    Row(TrimSpace(user.username), TrimSpace(user.email), site.hash(user.password), RoleOrViewer(user.role), 0,
        Permissions(user.permissions), if user.multi == Some(true) then 1 else 0,
        if user.ips.Some? then TrimSpace(user.ips.value) else "")
  }

  function CreateOutcome(site: Site, t: Table, user: NewUser): Outcome {
    if !(2 <= Utf8Length(TrimSpace(user.username)) <= 64) then BadName
    else if Utf8Length(user.password) < 8 then BadPassword
    else if RoleOrViewer(user.role) != ADMIN && RoleOrViewer(user.role) != VIEWER then BadRole
    else if Permissions(user.permissions).Some? && !site.permissionsOk(Permissions(user.permissions).value) then BadPermissions
    else if user.ips.Some? && !site.ipsOk(user.ips.value) then BadIps
    else if NameTaken(site, t.rows, TrimSpace(user.username)) then Duplicate
    else Done
  }

  function RowId(id: string): Option<int> {
    match ParseInt64(TrimSpace(id))
    case None => None
    case Some(n) => if n <= 0 then None else Some(n)
  }

  function EditedRole(cur: Row, edit: Edit): string {
    if edit.role.Some? then TrimSpace(edit.role.value) else cur.role
  }

  function EditedDisabled(cur: Row, edit: Edit): int {
    if edit.disabled.Some? then if edit.disabled.value then 1 else 0 else cur.disabled
  }

  function EditedRow(site: Site, cur: Row, edit: Edit): Row {
    Row(cur.username,
        if edit.email.Some? then TrimSpace(edit.email.value) else cur.email,
        if edit.password.Some? && TrimSpace(edit.password.value) != "" then site.hash(TrimSpace(edit.password.value)) else cur.hash,
        EditedRole(cur, edit), EditedDisabled(cur, edit),
        if edit.permissions.Some? then Permissions(edit.permissions) else cur.permissions,
        if edit.multi.Some? then if edit.multi.value then 1 else 0 else cur.multi,
        TrimSpace(if edit.ips.Some? then edit.ips.value else cur.ips))
  }

  // The row stops being an enabled administrator
  predicate Demotes(cur: Row, edit: Edit) {
    IsEnabledAdmin(cur) && (EditedRole(cur, edit) != ADMIN || EditedDisabled(cur, edit) == 1)
  }

  function ProfileOutcome(site: Site, edit: Edit): Outcome {
    if edit.password.Some? && 0 < Utf8Length(TrimSpace(edit.password.value)) < 8 then BadPassword
    else if Permissions(edit.permissions).Some? && !site.permissionsOk(Permissions(edit.permissions).value) then BadPermissions
    else if edit.ips.Some? && !site.ipsOk(TrimSpace(edit.ips.value)) then BadIps
    else Done
  }

  function UpdateOutcome(site: Site, t: Table, id: string, edit: Edit): Outcome {
    match RowId(id)
    case None => BadId
    case Some(n) =>
      if n !in t.rows then NotFound
      else
        var cur := t.rows[n];
        if edit.role.Some? && EditedRole(cur, edit) != ADMIN && EditedRole(cur, edit) != VIEWER then BadRole
        else if Demotes(cur, edit) && RemovesLastAccess(site, t.rows) then LastAdmin
        else ProfileOutcome(site, edit)
  }

  function DeleteOutcome(site: Site, t: Table, id: string, operator: Option<string>): Outcome {
    match RowId(id)
    case None => BadId
    case Some(n) =>
      if n !in t.rows then NotFound
      else if IsEnabledAdmin(t.rows[n]) && RemovesLastAccess(site, t.rows) then LastAdmin
      else if operator.Some? && site.equalFold(operator.value, t.rows[n].username) then OwnAccount
      else Done
  }

  function Judge(site: Site, t: Table, q: Request): Outcome {
    match q
    case Create(user) => CreateOutcome(site, t, user)
    case Update(id, edit) => UpdateOutcome(site, t, id, edit)
    case Delete(id, operator) => DeleteOutcome(site, t, id, operator)
  }

  // The table after a request: unchanged unless it is accepted
  function Step(site: Site, t: Table, q: Request): Table {
    if Judge(site, t, q) != Done then t
    else
      match q
      case Create(user) => Table(t.rows[t.nextId := NewRow(site, user)], t.nextId + 1)
      case Update(id, edit) =>
        var n := RowId(id).value;
        t.(rows := t.rows[n := EditedRow(site, t.rows[n], edit)])
      case Delete(id, _) => t.(rows := t.rows - {RowId(id).value})
  }

  function Run(site: Site, t: Table, qs: seq<Request>): Table {
    if qs == [] then t else Step(site, Run(site, t, qs[..|qs| - 1]), qs[|qs| - 1])
  }

  // ---------- the handlers ----------

  class Users {
    const site: Site
    var rows: map<int, Row>
    var nextId: int

    constructor (site: Site, rows: map<int, Row>, nextId: int)
      ensures this.site == site && View() == Table(rows, nextId)
    {
      this.site, this.rows, this.nextId := site, rows, nextId;
    }

    ghost function View(): Table
      reads this
    {
      Table(rows, nextId)
    }

    // INSERT fails on the UNIQUE index
    method Insert(row: Row) returns (ok: bool)
      modifies this
      ensures ok == !NameTaken(site, old(rows), row.username)
      ensures View() == if ok then Table(old(rows)[old(nextId) := row], old(nextId) + 1) else old(View())
    {
      ok := !NameTaken(site, rows, row.username);
      if ok {
        rows, nextId := rows[nextId := row], nextId + 1;
      }
    }

    method HandleCreate(user: NewUser) returns (r: Outcome)
      modifies this
      ensures r == Judge(site, old(View()), Create(user))
      ensures View() == Step(site, old(View()), Create(user))
    {
      hide TrimSpace, Utf8Length, NameTaken;
      var u := TrimSpace(user.username);
      if Utf8Length(u) < 2 || Utf8Length(u) > 64 {
        return BadName;
      }
      if Utf8Length(user.password) < 8 {
        return BadPassword;
      }
      var role := TrimSpace(user.role);
      if role == "" {
        role := VIEWER;
      }
      if role != ADMIN && role != VIEWER {
        return BadRole;
      }
      var permissions: Option<string> := None;
      if user.permissions.Some? {
        var pj := TrimSpace(user.permissions.value);
        if pj != "" {
          if !site.permissionsOk(pj) {
            return BadPermissions;
          }
          permissions := Some(pj);
        }
      }
      if user.ips.Some? && !site.ipsOk(user.ips.value) {
        return BadIps;
      }
      var multi := 0;
      if user.multi == Some(true) {
        multi := 1;
      }
      var ips := "";
      if user.ips.Some? {
        ips := TrimSpace(user.ips.value);
      }
      var ok := Insert(Row(u, TrimSpace(user.email), site.hash(user.password), role, 0, permissions, multi, ips));
      return if ok then Done else Duplicate;
    }

    method HandleUpdate(id: string, edit: Edit) returns (r: Outcome)
      modifies this
      ensures r == Judge(site, old(View()), Update(id, edit))
      ensures View() == Step(site, old(View()), Update(id, edit))
    {
      hide TrimSpace, ParseInt64, RemovesLastAccess, ProfileOutcome, EditedRow;
      var n := ParseInt64(TrimSpace(id));
      if n.None? || n.value <= 0 {
        return BadId;
      }
      if n.value !in rows {
        return NotFound;
      }
      var cur := rows[n.value];
      var role := cur.role;
      if edit.role.Some? {
        role := TrimSpace(edit.role.value);
        if role != ADMIN && role != VIEWER {
          return BadRole;
        }
      }
      var disabled := cur.disabled;
      if edit.disabled.Some? {
        disabled := if edit.disabled.value then 1 else 0;
      }
      if cur.role == ADMIN && cur.disabled == 0 && (role != ADMIN || disabled == 1) {
        if RemovesLastAccess(site, rows) {
          return LastAdmin;
        }
      }
      var outcome, next := EditProfile(cur, role, disabled, edit);
      if outcome == Done {
        rows := rows[n.value := next];
      }
      return outcome;
    }

    // The remaining fields of an update
    method EditProfile(cur: Row, role: string, disabled: int, edit: Edit) returns (r: Outcome, next: Row)
      requires role == EditedRole(cur, edit) && disabled == EditedDisabled(cur, edit)
      ensures r == ProfileOutcome(site, edit)
      ensures r == Done ==> next == EditedRow(site, cur, edit)
    {
      hide TrimSpace, Utf8Length, EditedRole, EditedDisabled;
      next := cur.(role := role, disabled := disabled);
      if edit.email.Some? {
        next := next.(email := TrimSpace(edit.email.value));
      }
      if edit.password.Some? && TrimSpace(edit.password.value) != "" {
        if Utf8Length(TrimSpace(edit.password.value)) < 8 {
          return BadPassword, next;
        }
        next := next.(hash := site.hash(TrimSpace(edit.password.value)));
      }
      if edit.permissions.Some? {
        var pj := TrimSpace(edit.permissions.value);
        if pj != "" && !site.permissionsOk(pj) {
          return BadPermissions, next;
        }
        next := next.(permissions := if pj == "" then None else Some(pj));
      }
      if edit.multi.Some? {
        next := next.(multi := if edit.multi.value then 1 else 0);
      }
      next := next.(ips := TrimSpace(cur.ips));
      if edit.ips.Some? {
        next := next.(ips := TrimSpace(edit.ips.value));
        if !site.ipsOk(next.ips) {
          return BadIps, next;
        }
      }
      return Done, next;
    }

    method HandleDelete(id: string, operator: Option<string>) returns (r: Outcome)
      modifies this
      ensures r == Judge(site, old(View()), Delete(id, operator))
      ensures View() == Step(site, old(View()), Delete(id, operator))
    {
      hide TrimSpace, ParseInt64, Fallback, EnabledAdmins;
      var n := ParseInt64(TrimSpace(id));
      if n.None? || n.value <= 0 {
        return BadId;
      }
      if n.value !in rows {
        return NotFound;
      }
      var cur := rows[n.value];
      if cur.role == ADMIN && cur.disabled == 0 {
        if RemovesLastAccess(site, rows) {
          return LastAdmin;
        }
      }
      if operator.Some? && site.equalFold(operator.value, cur.username) {
        return OwnAccount;
      }
      rows := rows - {n.value};
      return Done;
    }
  }

  // ---------- the last administrator ----------

  // The fallback account bears the configured name, or admin.
  lemma ExpectedIs(site: Site)
    ensures Expected(site) == if TrimSpace(site.dashboardUser) == "" then "admin" else TrimSpace(site.dashboardUser)
  {
  }

  // A run takes its requests one by one.
  lemma RunOneMore(site: Site, t: Table, qs: seq<Request>, q: Request)
    ensures Run(site, t, []) == t
    ensures Run(site, t, qs + [q]) == Step(site, Run(site, t, qs), q)
  {
    hide Step;
    assert (qs + [q])[..|qs|] == qs;
  }

  lemma StepKeepsValid(site: Site, t: Table, q: Request)
    requires Valid(site, t)
    ensures Valid(site, Step(site, t, q))
  {
    hide TrimSpace, ParseInt64, Fallback, EnabledAdmins, Utf8Length;
  }

  // The one row a request is about
  function Target(t: Table, q: Request): Option<int> {
    if q.Create? then Some(t.nextId) else RowId(q.id)
  }

  // Every request leaves the other rows alone, and a deletion removes its row.
  lemma StepTouchesOneRow(site: Site, t: Table, q: Request, other: int)
    requires Valid(site, t)
    ensures var after := Step(site, t, q).rows;
      Some(other) != Target(t, q) ==>
        (other in after <==> other in t.rows) && (other in after ==> after[other] == t.rows[other])
    ensures q.Delete? && Judge(site, t, q) == Done ==>
      Target(t, q).value in t.rows && Target(t, q).value !in Step(site, t, q).rows
  {
    hide TrimSpace, ParseInt64, Fallback, EnabledAdmins, Utf8Length, NameTaken;
  }

  // A creation adds one enabled row with the trimmed texts and the hashed password; without a role
  // it is a viewer.
  lemma CreatedRowIs(site: Site, t: Table, user: NewUser)
    requires Valid(site, t) && Judge(site, t, Create(user)) == Done
    ensures t.nextId !in t.rows && t.nextId in Step(site, t, Create(user)).rows
    ensures var r := Step(site, t, Create(user)).rows[t.nextId];
      r.username == TrimSpace(user.username) && r.email == TrimSpace(user.email) && r.hash == site.hash(user.password) &&
      r.disabled == 0 && (r.role == "admin" || r.role == "viewer") &&
      (r.role == "viewer" <==> TrimSpace(user.role) == "" || TrimSpace(user.role) == "viewer") &&
      (r.permissions == if user.permissions.None? || TrimSpace(user.permissions.value) == "" then None else Some(TrimSpace(user.permissions.value))) &&
      r.ips == (if user.ips.Some? then TrimSpace(user.ips.value) else "") &&
      (r.multi == 1 <==> user.multi == Some(true)) && (r.multi == 0 || r.multi == 1)
  {
    hide TrimSpace, Utf8Length, NameTaken;
    assert "admin" != "viewer" by { assert |"admin"| != |"viewer"|; }
  }

  // A creation is accepted exactly when its texts are within bounds and nobody has the name.
  lemma CreationAcceptedIff(site: Site, t: Table, user: NewUser)
    ensures Judge(site, t, Create(user)) == Done <==>
      2 <= Utf8Length(TrimSpace(user.username)) <= 64 && Utf8Length(user.password) >= 8 &&
      (TrimSpace(user.role) == "" || TrimSpace(user.role) == "admin" || TrimSpace(user.role) == "viewer") &&
      (user.permissions.Some? && TrimSpace(user.permissions.value) != "" ==> site.permissionsOk(TrimSpace(user.permissions.value))) &&
      (user.ips.Some? ==> site.ipsOk(user.ips.value)) &&
      forall id :: id in t.rows ==> site.key(t.rows[id].username) != site.key(TrimSpace(user.username))
  {
    hide TrimSpace, Utf8Length;
    assert "admin" != "" && "viewer" != "";
  }

  // An update keeps the row's name and every field it does not mention, and sets those it does.
  // A blank password counts as not mentioned.
  lemma UpdatedRowIs(site: Site, t: Table, id: string, e: Edit)
    requires Judge(site, t, Update(id, e)) == Done
    ensures RowId(id).Some? && RowId(id).value in t.rows && RowId(id).value in Step(site, t, Update(id, e)).rows
    ensures var r, cur := Step(site, t, Update(id, e)).rows[RowId(id).value], t.rows[RowId(id).value];
      r.username == cur.username &&
      r.email == (if e.email.Some? then TrimSpace(e.email.value) else cur.email) &&
      r.role == (if e.role.Some? then TrimSpace(e.role.value) else cur.role) &&
      (e.role.Some? ==> r.role == "admin" || r.role == "viewer") &&
      r.disabled == (if e.disabled == Some(true) then 1 else if e.disabled == Some(false) then 0 else cur.disabled) &&
      r.multi == (if e.multi == Some(true) then 1 else if e.multi == Some(false) then 0 else cur.multi) &&
      r.ips == (if e.ips.Some? then TrimSpace(e.ips.value) else TrimSpace(cur.ips)) &&
      (e.permissions.None? ==> r.permissions == cur.permissions) &&
      (e.permissions.Some? ==> if TrimSpace(e.permissions.value) == "" then r.permissions == None else r.permissions == Some(TrimSpace(e.permissions.value))) &&
      r.hash == (if e.password.Some? && TrimSpace(e.password.value) != "" then site.hash(TrimSpace(e.password.value)) else cur.hash)
  {
    hide TrimSpace, ParseInt64, RemovesLastAccess, Utf8Length;
  }

  // A deletion is accepted exactly when its row exists, is not the operator's own, and is not an
  // enabled administrator without whom at most one way in as one would be left counted.
  lemma DeletionAcceptedIff(site: Site, t: Table, id: string, operator: Option<string>)
    ensures Judge(site, t, Delete(id, operator)) == Done <==>
      ParseInt64(TrimSpace(id)).Some? && ParseInt64(TrimSpace(id)).value > 0 && ParseInt64(TrimSpace(id)).value in t.rows &&
      var row := t.rows[ParseInt64(TrimSpace(id)).value];
      !(operator.Some? && site.equalFold(operator.value, row.username)) &&
      !(row.role == "admin" && row.disabled == 0 && RemovesLastAccess(site, t.rows))
  {
    hide TrimSpace, ParseInt64, RemovesLastAccess;
  }

  // Two enabled administrators leave one when either goes.
  lemma AnotherAdmin(rows: map<int, Row>, id: int)
    requires id in rows && IsEnabledAdmin(rows[id])
    ensures |EnabledAdmins(rows)| >= 1
    ensures |EnabledAdmins(rows)| >= 2 <==> exists other :: other in rows && other != id && IsEnabledAdmin(rows[other])
  {
    var all := EnabledAdmins(rows);
    assert id in all;
    if other :| other in rows && other != id && IsEnabledAdmin(rows[other]) {
      Larger({id, other}, all);
    } else {
      assert all == {id};
    }
  }

  lemma {:induction false} Larger(a: set<int>, b: set<int>)
    requires a <= b
    ensures |a| <= |b|
  {
    assert b == a + (b - a);
  }

  // The guard on an update is exact: it is refused precisely when carrying it out would leave
  // nobody able to sign in as an administrator.
  lemma UpdateGuardIsExact(site: Site, t: Table, n: int, edit: Edit)
    requires n in t.rows && Demotes(t.rows[n], edit)
    ensures RemovesLastAccess(site, t.rows) <==>
      !HasAccess(site, t.rows[n := EditedRow(site, t.rows[n], edit)])
  {
    hide TrimSpace, EnabledAdmins;
    var after := t.rows[n := EditedRow(site, t.rows[n], edit)];
    AnotherAdmin(t.rows, n);
    assert after[n].username == t.rows[n].username && !IsEnabledAdmin(after[n]);
    assert Fallback(site, after) <==> Fallback(site, t.rows) by {
      forall id | id in t.rows ensures id in after && after[id].username == t.rows[id].username {
      }
    }
    if |EnabledAdmins(t.rows)| >= 2 {
      var other :| other in t.rows && other != n && IsEnabledAdmin(t.rows[other]);
      assert IsEnabledAdmin(after[other]);
    }
  }

  // On a deletion it is not: removing the only administrator is refused although harmless exactly
  // when that administrator's own row is what keeps the fallback account out.
  lemma DeleteGuardIsExactExceptForTheFallbackRow(site: Site, t: Table, n: int)
    requires Valid(site, t) && n in t.rows && IsEnabledAdmin(t.rows[n])
    ensures !HasAccess(site, t.rows - {n}) ==> RemovesLastAccess(site, t.rows)
    ensures RemovesLastAccess(site, t.rows) && HasAccess(site, t.rows - {n}) <==>
      |EnabledAdmins(t.rows)| == 1 && site.key(t.rows[n].username) == site.key(Expected(site))
  {
    hide TrimSpace, EnabledAdmins, Expected;
    var after := t.rows - {n};
    AnotherAdmin(t.rows, n);
    if |EnabledAdmins(t.rows)| >= 2 {
      var other :| other in t.rows && other != n && IsEnabledAdmin(t.rows[other]);
      assert IsEnabledAdmin(after[other]);
    } else {
      forall id | id in after ensures !IsEnabledAdmin(after[id]) {
        assert id in t.rows;
      }
      if site.key(t.rows[n].username) == site.key(Expected(site)) {
        assert Fallback(site, after);
        assert !Fallback(site, t.rows);
      } else {
        assert Fallback(site, after) ==> Fallback(site, t.rows) by {
          forall id | id in t.rows && id != n ensures id in after {
          }
        }
        if Fallback(site, t.rows) {
          assert Fallback(site, after);
        }
      }
    }
  }

  // An accepted update loses no administrator, or loses one of several ways in.
  lemma UpdateKeepsAccess(site: Site, t: Table, n: int, edit: Edit)
    requires n in t.rows && HasAccess(site, t.rows)
    requires !(Demotes(t.rows[n], edit) && RemovesLastAccess(site, t.rows))
    ensures HasAccess(site, t.rows[n := EditedRow(site, t.rows[n], edit)])
  {
    hide TrimSpace, EnabledAdmins, Expected, Permissions;
    if Demotes(t.rows[n], edit) {
      UpdateGuardIsExact(site, t, n, edit);
    } else {
      var after := t.rows[n := EditedRow(site, t.rows[n], edit)];
      assert after[n].username == t.rows[n].username;
      if Fallback(site, t.rows) {
        assert Fallback(site, after);
      } else {
        var id :| id in t.rows && IsEnabledAdmin(t.rows[id]);
        assert IsEnabledAdmin(after[id]);
      }
    }
  }

  // An update is accepted exactly when its row exists, its texts are within bounds and somebody can
  // still sign in as an administrator afterwards.
  lemma UpdateAcceptedIff(site: Site, t: Table, id: string, e: Edit)
    requires HasAccess(site, t.rows)
    ensures Judge(site, t, Update(id, e)) == Done <==>
      ParseInt64(TrimSpace(id)).Some? && ParseInt64(TrimSpace(id)).value > 0 && ParseInt64(TrimSpace(id)).value in t.rows &&
      (e.role.Some? ==> TrimSpace(e.role.value) == "admin" || TrimSpace(e.role.value) == "viewer") &&
      (e.password.Some? && TrimSpace(e.password.value) != "" ==> Utf8Length(TrimSpace(e.password.value)) >= 8) &&
      (e.permissions.Some? && TrimSpace(e.permissions.value) != "" ==> site.permissionsOk(TrimSpace(e.permissions.value))) &&
      (e.ips.Some? ==> site.ipsOk(TrimSpace(e.ips.value))) &&
      HasAccess(site, t.rows[ParseInt64(TrimSpace(id)).value := EditedRow(site, t.rows[ParseInt64(TrimSpace(id)).value], e)])
  {
    hide TrimSpace, ParseInt64, RemovesLastAccess, Utf8Length, HasAccess;
    var n := RowId(id);
    if n.Some? && n.value in t.rows {
      if Demotes(t.rows[n.value], e) {
        UpdateGuardIsExact(site, t, n.value, e);
      } else {
        UpdateKeepsAccess(site, t, n.value, e);
      }
    }
  }

  lemma DeletionKeepsAccess(site: Site, rows: map<int, Row>, n: int)
    requires n in rows && HasAccess(site, rows)
    requires !(IsEnabledAdmin(rows[n]) && RemovesLastAccess(site, rows))
    ensures HasAccess(site, rows - {n})
  {
    hide TrimSpace, EnabledAdmins, Expected;
    var after := rows - {n};
    if Fallback(site, rows) {
      assert Fallback(site, after);
    } else {
      var id :| id in rows && IsEnabledAdmin(rows[id]);
      if id == n {
        AnotherAdmin(rows, n);
        var other :| other in rows && other != n && IsEnabledAdmin(rows[other]);
        assert IsEnabledAdmin(after[other]);
      } else {
        assert IsEnabledAdmin(after[id]);
      }
    }
  }

  // No accepted update or deletion locks every administrator out.
  lemma ChangesKeepAccess(site: Site, t: Table, q: Request)
    requires HasAccess(site, t.rows) && !q.Create?
    ensures HasAccess(site, Step(site, t, q).rows)
  {
    hide TrimSpace, ParseInt64, HasAccess, RemovesLastAccess, Utf8Length, Permissions, Demotes, EditedRow, EditedRole;
    if Judge(site, t, q) == Done {
      var n := RowId(q.id).value;
      if q.Update? {
        UpdateKeepsAccess(site, t, n, q.edit);
      } else {
        DeletionKeepsAccess(site, t.rows, n);
      }
    }
  }

  // A creation that takes the fallback account's name for a viewer while no administrator is enabled
  predicate TakesFallbackName(site: Site, rows: map<int, Row>, user: NewUser) {
    !(exists id :: id in rows && IsEnabledAdmin(rows[id])) &&
    RoleOrViewer(user.role) != ADMIN && site.key(TrimSpace(user.username)) == site.key(Expected(site))
  }

  // Creations carry no guard, and exactly these lock every administrator out.
  lemma CreationLocksOutIff(site: Site, t: Table, user: NewUser)
    requires Valid(site, t) && HasAccess(site, t.rows) && Judge(site, t, Create(user)) == Done
    ensures !HasAccess(site, Step(site, t, Create(user)).rows) <==> TakesFallbackName(site, t.rows, user)
  {
    hide TrimSpace, Expected, Utf8Length, Permissions, RoleOrViewer, CreateOutcome;
    var after := Step(site, t, Create(user)).rows;
    var row := NewRow(site, user);
    assert t.nextId !in t.rows;
    assert after == t.rows[t.nextId := row] && after[t.nextId] == row;
    if id :| id in t.rows && IsEnabledAdmin(t.rows[id]) {
      assert IsEnabledAdmin(after[id]);
    } else {
      assert Fallback(site, t.rows);
      if row.role == ADMIN {
        assert IsEnabledAdmin(after[t.nextId]);
      } else {
        assert !(exists id :: id in after && IsEnabledAdmin(after[id]));
        assert Fallback(site, after) <==> site.key(row.username) != site.key(Expected(site));
      }
    }
  }

  predicate Locks(site: Site, t: Table, q: Request) {
    q.Create? && Judge(site, t, q) == Done && TakesFallbackName(site, t.rows, q.user)
  }

  // Over any run of requests access is kept at every step, unless one of those creations is made.
  lemma {:induction false} AccessSurvivesEveryRun(site: Site, t: Table, qs: seq<Request>)
    requires Valid(site, t) && HasAccess(site, t.rows)
    requires forall i :: 0 <= i < |qs| ==> !Locks(site, Run(site, t, qs[..i]), qs[i])
    ensures Valid(site, Run(site, t, qs)) && HasAccess(site, Run(site, t, qs).rows)
  {
    hide Step, HasAccess, Valid, Judge, TakesFallbackName;
    if qs != [] {
      var front, q := qs[..|qs| - 1], qs[|qs| - 1];
      forall i | 0 <= i < |front| ensures !Locks(site, Run(site, t, front[..i]), front[i]) {
        assert front[..i] == qs[..i];
      }
      AccessSurvivesEveryRun(site, t, front);
      var before := Run(site, t, front);
      StepKeepsValid(site, before, q);
      if q.Create? {
        if Judge(site, before, q) == Done {
          CreationLocksOutIff(site, before, q.user);
        } else {
          assert Step(site, before, q) == before by { RefusedChangesNothing(site, before, q); }
        }
      } else {
        ChangesKeepAccess(site, before, q);
      }
    }
  }

  lemma RefusedChangesNothing(site: Site, t: Table, q: Request)
    requires Judge(site, t, q) != Done
    ensures Step(site, t, q) == t
  {
  }

  // The lone administrator called like the fallback account: deleting it is refused, although the
  // fallback account would take its place.
  lemma HarmlessDeletionRefused(site: Site, t: Table)
    requires TrimSpace(site.dashboardUser) == ""
    requires t.rows == map[1 := Row("admin", "", "", ADMIN, 0, None, 0, "")]
    ensures DeleteOutcome(site, t, Itoa(1), None) == LastAdmin && HasAccess(site, t.rows - {1})
  {
    hide Itoa, ParseInt64, Utf8Length, TrimSpace;
    var id := Itoa(1);
    assert RowId(id) == Some(1) by { OneIsAnId(); }
    assert IsEnabledAdmin(t.rows[1]);
    assert EnabledAdmins(t.rows) == {1};
    assert !Fallback(site, t.rows);
    assert Fallback(site, t.rows - {1});
  }

  lemma OneIsAnId()
    ensures RowId(Itoa(1)) == Some(1)
  {
    hide ParseInt64, Itoa;
    ParseIntOfItoa(1);
    assert Trimmed(Itoa(1)) by { DigitsAreTrimmed(); }
  }

  lemma DigitsAreTrimmed()
    ensures Trimmed(Itoa(1)) && TrimSpace(Itoa(1)) == Itoa(1)
  {
    assert Itoa(1) == "1";
  }
}
