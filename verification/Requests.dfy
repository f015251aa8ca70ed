/** The administrator's requests as sequences of statements, and every way concurrent requests can interleave. */
module Requests {
  import opened Wrappers
  import opened Text
  import opened Catalog
  import opened Tables
  import opened Statements

  datatype Request =
    | CreateProject(adminId: nat, name: string)
    | RemoveProject(projectId: nat)
    | RemoveAdmin(adminId: nat)
    | CreateUser(email: string)
    | RemoveUser(userId: nat)
    | AssignUser(projectId: nat, userId: nat)
    | UnassignUser(projectId: nat, userId: nat)
    | SetUserRole(projectId: nat, userId: nat, roleId: nat)
    | UnsetUserRole(projectId: nat, userId: nat)
    | AssignUserToDepartment(projectId: nat, userId: nat, departmentId: nat)
    | RemoveUserFromDepartment(projectId: nat, userId: nat)
    | SetUserDepartmentRole(projectId: nat, userId: nat, departmentRoleId: nat)
    | UnsetUserDepartmentRole(projectId: nat, userId: nat)
    | CreateDepartment(projectId: nat, name: string)
    | UpdateDepartment(departmentId: nat, name: string)
    | RemoveDepartment(departmentId: nat)
    | CreateDepartmentRole(departmentId: nat, name: string)
    | UpdateDepartmentRole(departmentRoleId: nat, name: string)
    | RemoveDepartmentRole(departmentRoleId: nat)
    | SetDepartmentRolePolicy(departmentRoleId: nat, resource: string, flags: Flags)
    | RemoveDepartmentRolePolicy(policyId: nat)
    | CreateRole(projectId: nat, name: string)
    | UpdateRole(roleId: nat, name: string)
    | RemoveRole(roleId: nat)
    | SetPermission(roleId: nat, resource: string, scope: Option<nat>, flags: Flags)
    | RemovePermission(permissionId: nat)

  /** What a request in flight remembers of its earlier reads. */
  datatype Local =
    | Start
    | Checked                          // the rows it needs were there
    | Unrivalled                       // and no other row has the name
    | RoleRead(departmentId: nat)      // the department of the department role it read
    | PermissionRead(found: Option<nat>)

  datatype Progress = More(local: Local) | Over(result: Result<Unit>)

  /** The last statement of a request: a write that succeeds or leaves the tables alone. */
  function Wrote(t: Tables, r: Result<Tables>): (Tables, Progress) {
    match r
    case Ok(t') => (t', Over(Ok(Done)))
    case Err(f) => (t, Over(Err(f)))
  }

  function Read(t: Tables, found: bool, next: Local): (Tables, Progress) {
    if found then (t, More(next)) else (t, Over(Err(NotFound)))
  }

  function Refuse(t: Tables, f: Failure): (Tables, Progress) {
    (t, Over(Err(f)))
  }

  /** One statement of a request. */
  ghost function Advance(c: Catalog, t: Tables, req: Request, l: Local): (Tables, Progress) {
    match req
    case AssignUser(_, _) | UnassignUser(_, _) | SetUserRole(_, _, _) | UnsetUserRole(_, _)
       | AssignUserToDepartment(_, _, _) | RemoveUserFromDepartment(_, _)
       | SetUserDepartmentRole(_, _, _) | UnsetUserDepartmentRole(_, _) =>
      AdvanceMembership(t, req, l)
    case SetDepartmentRolePolicy(_, _, _) | RemoveDepartmentRolePolicy(_) | SetPermission(_, _, _,
        _) | RemovePermission(_) =>
      AdvanceGrants(c, t, req, l)
    case CreateDepartment(_, _) | UpdateDepartment(_, _) | RemoveDepartment(_)
       | CreateDepartmentRole(_, _) | UpdateDepartmentRole(_, _) | RemoveDepartmentRole(_) =>
      AdvanceDepartments(t, req, l)
    case _ =>
      AdvanceEntities(t, req, l)
  }

  ghost predicate IsDepartment(req: Request) {
    || req.CreateDepartment? || req.UpdateDepartment? || req.RemoveDepartment?
    || req.CreateDepartmentRole? || req.UpdateDepartmentRole? || req.RemoveDepartmentRole?
  }

  ghost predicate IsMembership(req: Request) {
    || req.AssignUser? || req.UnassignUser? || req.SetUserRole? || req.UnsetUserRole? || req.AssignUserToDepartment?
    || req.RemoveUserFromDepartment? || req.SetUserDepartmentRole? || req.UnsetUserDepartmentRole?
  }

  ghost predicate IsGrant(req: Request) {
    req.SetDepartmentRolePolicy? || req.RemoveDepartmentRolePolicy? || req.SetPermission? || req.RemovePermission?
  }

  ghost function AdvanceMembership(t: Tables, req: Request, l: Local): (Tables, Progress)
    requires IsMembership(req)
  {
    var k := (req.projectId, req.userId);
    match req
    case AssignUser(p, u) =>
      if l.Start? then Read(t, p in t.projects.rows, Checked)
      else if l.Checked? then (if k in t.members then Refuse(t, Conflict) else (t, More(Unrivalled)))
      else Wrote(t, InsertMember(t, k))
    case UnassignUser(p, u) =>
      Wrote(t, DeleteMember(t, k))
    case SetUserRole(p, u, roleId) =>
      UpdateMember(t, k, ProjectRoleTo(Some(roleId)))
    case UnsetUserRole(p, u) =>
      UpdateMember(t, k, ProjectRoleTo(None))
    case AssignUserToDepartment(p, u, d) =>
      if l.Start? then
        if d !in t.departments.rows then Refuse(t, NotFound)
        else if t.departments.rows[d].projectId != p then Refuse(t, Conflict)
        else (t, More(Checked))
      else UpdateMember(t, k, DepartmentTo(Some(d), None))
    case RemoveUserFromDepartment(p, u) =>
      UpdateMember(t, k, DepartmentTo(None, None))
    case SetUserDepartmentRole(p, u, r) =>
      if l.Start? then Read(t, k in t.members, Checked)
      else if l.Checked? then
        if r !in t.departmentRoles.rows then Refuse(t, NotFound)
        else
          var d := t.departmentRoles.rows[r].departmentId;
          if d in t.departments.rows && t.departments.rows[d].projectId == p then (t, More(RoleRead(d)))
              else Refuse(t, Conflict)
      else if l.RoleRead? then
        UpdateMember(t, k, DepartmentTo(Some(l.departmentId), Some(r)))
      else Refuse(t, Conflict)
    case UnsetUserDepartmentRole(p, u) =>
      UpdateMember(t, k, DepartmentRoleTo(None))
  }

  /** The columns a `projectUser.update` names; the others keep what they hold when it runs. */
  datatype Change =
    | ProjectRoleTo(role: Option<nat>)
    | DepartmentTo(department: Option<nat>, departmentRole: Option<nat>)
    | DepartmentRoleTo(role: Option<nat>)

  function Changed(m: Member, change: Change): Member {
    match change
    case ProjectRoleTo(role) => m.(projectRoleId := role)
    case DepartmentTo(d, r) => m.(departmentId := d, departmentRoleId := r)
    case DepartmentRoleTo(r) => m.(departmentRoleId := r)
  }

  function UpdateMember(t: Tables, k: (nat, nat), change: Change): (Tables, Progress) {
    if k !in t.members then Refuse(t, NotFound) else Wrote(t, WriteMember(t, k, Changed(t.members[k], change)))
  }

  ghost function AdvanceDepartments(t: Tables, req: Request, l: Local): (Tables, Progress)
    requires IsDepartment(req)
  {
    match req
    case CreateDepartment(p, name) =>
      if l.Start? then Read(t, p in t.projects.rows, Checked) else Wrote(t, InsertDepartment(t, p, name))
    case UpdateDepartment(d, name) =>
      if l.Start? then Read(t, d in t.departments.rows, Checked) else Wrote(t, RenameDepartment(t, d, name))
    case RemoveDepartment(d) =>
      if l.Start? then Read(t, d in t.departments.rows, Checked) else Wrote(t, DeleteDepartment(t, d))
    case CreateDepartmentRole(d, name) =>
      if l.Start? then
        if d in t.departments.rows && Trim(name) == "" then Refuse(t, Conflict)
            else Read(t, d in t.departments.rows, Checked)
      else Wrote(t, InsertDepartmentRole(t, d, Trim(name)))
    case UpdateDepartmentRole(r, name) =>
      if l.Start? then
        if r in t.departmentRoles.rows && Trim(name) == "" then Refuse(t, Conflict)
        else if r !in t.departmentRoles.rows then Refuse(t, NotFound)
        else (t, More(RoleRead(t.departmentRoles.rows[r].departmentId)))
      else if l.RoleRead? then
        if DepartmentRoleNamed(t, l.departmentId, Trim(name), Some(r)) then Refuse(t, Conflict) else (t, More(Unrivalled))
      else Wrote(t, RenameDepartmentRole(t, r, Trim(name)))
    case RemoveDepartmentRole(r) =>
      if l.Start? then Read(t, r in t.departmentRoles.rows, Checked) else Wrote(t, DeleteDepartmentRole(t, r))
  }

  ghost function AdvanceEntities(t: Tables, req: Request, l: Local): (Tables, Progress)
    requires !IsMembership(req) && !IsGrant(req) && !IsDepartment(req)
  {
    match req
    case CreateProject(adminId, name) => (InsertProject(t, name, adminId), Over(Ok(Done)))
    case RemoveProject(p) =>
      if l.Start? then Read(t, p in t.projects.rows, Checked) else Wrote(t, DeleteProject(t, p))
    case RemoveAdmin(adminId) => (DeleteRows(t, NOTHING.(projects := ProjectsOf(t, adminId))), Over(Ok(Done)))
    case CreateUser(email) => (InsertUser(t, email), Over(Ok(Done)))
    case RemoveUser(u) =>
      if l.Start? then Read(t, u in t.users.rows, Checked) else Wrote(t, DeleteUser(t, u))
    case CreateRole(p, name) =>
      if l.Start? then
        if p in t.projects.rows && Trim(name) == "" then Refuse(t, Conflict) else Read(t, p in t.projects.rows, Checked)
      else if l.Checked? then
        if ProjectRoleNamed(t, p, Trim(name), None) then Refuse(t, Conflict) else (t, More(Unrivalled))
      else Wrote(t, InsertProjectRole(t, p, Trim(name)))
    case UpdateRole(r, name) =>
      if l.Start? then
        if r in t.projectRoles.rows && Trim(name) == "" then Refuse(t, Conflict)
        else if r !in t.projectRoles.rows then Refuse(t, NotFound)
        else (t, More(RoleRead(t.projectRoles.rows[r].projectId)))
      else if l.RoleRead? then
        if ProjectRoleNamed(t, l.departmentId, Trim(name), Some(r)) then Refuse(t, Conflict) else (t, More(Unrivalled))
      else Wrote(t, RenameProjectRole(t, r, Trim(name)))
    case RemoveRole(r) =>
      if l.Start? then Read(t, r in t.projectRoles.rows, Checked) else Wrote(t, DeleteProjectRole(t, r))
  }

  ghost function AdvanceGrants(c: Catalog, t: Tables, req: Request, l: Local): (Tables, Progress)
    requires IsGrant(req)
  {
    match req
    case SetDepartmentRolePolicy(r, resource, flags) =>
      var key := NormalizePolicyResource(c, resource);
      if l.Start? && r !in t.departmentRoles.rows then Refuse(t, NotFound)
      else if key == "" || !c.Allowed(key) then Refuse(t, Conflict)
      else if l.Start? then (t, More(Checked))
      else Wrote(t, UpsertPolicy(t, r, key, BuildPolicyFlags(c, key, flags)))
    case RemoveDepartmentRolePolicy(p) =>
      if l.Start? then Read(t, p in t.policies.rows, Checked) else Wrote(t, DeletePolicy(t, p))
    case SetPermission(r, resource, scope, flags) =>
      var key := NormalizePolicyResource(c, resource);
      var row := Permission(r, scope, key, BuildPolicyFlags(c, key, flags));
      if !c.Allowed(key) then Refuse(t, Conflict)
      else if scope.Some? then Wrote(t, UpsertPermission(t, row))
      else if l.Start? then (t, More(PermissionRead(FindPermission(t, PermissionKey(row)))))
      else if l.PermissionRead? && l.found.Some? then Wrote(t, WritePermission(t, l.found.value, row.flags))
      else Wrote(t, InsertPermission(t, row))
    case RemovePermission(p) =>
      if l.Start? then Read(t, p in t.permissions.rows, Checked) else Wrote(t, DeletePermission(t, p))
  }

  /** The delete a request's last statement performs, if it is one. */
  function RootOf(t: Tables, req: Request): Option<Dead> {
    match req
    case RemoveProject(p) => Some(NOTHING.(projects := {p}))
    case RemoveAdmin(adminId) => Some(NOTHING.(projects := ProjectsOf(t, adminId)))
    case RemoveUser(u) => Some(NOTHING.(users := {u}))
    case UnassignUser(p, u) => Some(NOTHING.(members := {(p, u)}))
    case RemoveDepartment(d) => Some(NOTHING.(departments := {d}))
    case RemoveDepartmentRole(r) => Some(NOTHING.(departmentRoles := {r}))
    case RemoveDepartmentRolePolicy(p) => Some(NOTHING.(policies := {p}))
    case RemoveRole(r) => Some(NOTHING.(projectRoles := {r}))
    case RemovePermission(p) => Some(NOTHING.(permissions := {p}))
    case _ => None
  }

  /** A statement leaves the tables alone, or performs the request's delete, or inserts and updates rows; and only the
      requests about grants insert or update those. */
  ghost predicate Shaped(t: Tables, req: Request, next: (Tables, Progress)) {
    var (t', progress) := next;
    && (progress != Over(Ok(Done)) ==> t' == t)
    && (progress == Over(Ok(Done)) && RootOf(t, req).Some? ==> t' == DeleteRows(t, RootOf(t, req).value))
    && (RootOf(t, req).None? ==>
          && (req.SetPermission? || t'.permissions == t.permissions)
          && (req.SetDepartmentRolePolicy? || t'.policies == t.policies)
          && t'.tasks == t.tasks
          && t.departmentRoles.rows.Keys <= t'.departmentRoles.rows.Keys
          && t.projectRoles.rows.Keys <= t'.projectRoles.rows.Keys && t.departments.rows.Keys <= t'.departments.rows.Keys)
  }

  lemma MembershipShaped(t: Tables, req: Request, l: Local)
    requires IsMembership(req)
    ensures Shaped(t, req, AdvanceMembership(t, req, l))
  {
    hide DeleteRows, MemberRefers;
  }

  lemma DepartmentShaped(t: Tables, req: Request, l: Local)
    requires IsDepartment(req)
    ensures Shaped(t, req, AdvanceDepartments(t, req, l))
  {
    hide DeleteRows, Trim, DepartmentRoleNamed;
  }

  lemma GrantShaped(c: Catalog, t: Tables, req: Request, l: Local)
    requires IsGrant(req)
    ensures Shaped(t, req, AdvanceGrants(c, t, req, l))
  {
    hide DeleteRows, NormalizePolicyResource, BuildPolicyFlags, FindPolicy, FindPermission;
  }

  lemma EntityShaped(t: Tables, req: Request, l: Local)
    requires !IsMembership(req) && !IsGrant(req) && !IsDepartment(req)
    ensures Shaped(t, req, AdvanceEntities(t, req, l))
  {
    hide DeleteRows, Trim, ProjectRoleNamed;
  }

  lemma StatementShape(c: Catalog, t: Tables, req: Request, l: Local)
    ensures Shaped(t, req, Advance(c, t, req, l))
  {
    hide Shaped, AdvanceMembership, AdvanceDepartments, AdvanceGrants, AdvanceEntities;
    if IsMembership(req) { MembershipShaped(t, req, l); }
    else if IsDepartment(req) { DepartmentShaped(t, req, l); }
    else if IsGrant(req) { GrantShaped(c, t, req, l); }
    else { EntityShaped(t, req, l); }
  }

  // ── What a request in flight may still rely on ──────────────────────────

  /** A read may be out of date, but what it says of a row that is still there is still true. */
  ghost predicate Remembers(c: Catalog, t: Tables, req: Request, l: Local) {
    match req
    case AssignUserToDepartment(p, u, d) =>
      !l.Start? ==>
        d < t.departments.next && (d in t.departments.rows ==> t.departments.rows[d].projectId == p)
    case SetUserDepartmentRole(p, u, r) =>
      l.RoleRead? ==>
        && l.departmentId < t.departments.next
        && (l.departmentId in t.departments.rows ==> t.departments.rows[l.departmentId].projectId == p)
        && r < t.departmentRoles.next
        && (r in t.departmentRoles.rows ==> t.departmentRoles.rows[r].departmentId == l.departmentId)
    case SetPermission(r, resource, scope, _) =>
      l.PermissionRead? && l.found.Some? ==>
        && l.found.value < t.permissions.next
        && (l.found.value in t.permissions.rows ==>
              PermissionKey(t.permissions.rows[l.found.value]) == (r, scope, NormalizePolicyResource(c, resource)))
    case _ => true
  }

  lemma RemembersAged(c: Catalog, t: Tables, t': Tables, req: Request, l: Local)
    requires Remembers(c, t, req, l) && Aged(t, t')
    ensures Remembers(c, t', req, l)
  {
  }

  /** One statement of one request keeps the store sound, moves no row another request relies on, and leaves its own
      request with a memory that is still true. */
  ghost predicate GoodStep(c: Catalog, t: Tables, req: Request, next: (Tables, Progress)) {
    && Inv(c, next.0) && Aged(t, next.0)
    && (next.1.More? ==> next.0 == t && Remembers(c, t, req, next.1.local))
  }

  lemma Standstill(t: Tables)
    ensures Aged(t, t)
  {
  }

  lemma MemberIsPlaced(c: Catalog, t: Tables, k: (nat, nat))
    requires Inv(c, t)
    ensures k in t.members ==> PlacedInProject(t, k.0, t.members[k])
    ensures ValidIds(t)
  {
  }

  lemma MembershipStep(c: Catalog, t: Tables, req: Request, l: Local)
    requires Inv(c, t) && Remembers(c, t, req, l) && IsMembership(req)
    ensures GoodStep(c, t, req, AdvanceMembership(t, req, l))
  {
    hide Inv, Aged, DeleteRows, Trim;
    var k := (req.projectId, req.userId);
    Standstill(t);
    MemberIsPlaced(c, t, k);
    match req
    case AssignUser(p, u) => InsertMemberKept(c, t, k);
    case UnassignUser(p, u) => DeleteRowsKept(c, t, NOTHING.(members := {k}));
    case SetUserRole(p, u, roleId) => UpdateMemberStep(c, t, k, ProjectRoleTo(Some(roleId)));
    case UnsetUserRole(p, u) => UpdateMemberStep(c, t, k, ProjectRoleTo(None));
    case AssignUserToDepartment(p, u, d) =>
      if !l.Start? { UpdateMemberStep(c, t, k, DepartmentTo(Some(d), None)); }
    case RemoveUserFromDepartment(p, u) => UpdateMemberStep(c, t, k, DepartmentTo(None, None));
    case SetUserDepartmentRole(p, u, r) =>
      if l.RoleRead? { UpdateMemberStep(c, t, k, DepartmentTo(Some(l.departmentId), Some(r))); }
    case UnsetUserDepartmentRole(p, u) => UpdateMemberStep(c, t, k, DepartmentRoleTo(None));
  }

  lemma UpdateMemberStep(c: Catalog, t: Tables, k: (nat, nat), change: Change)
    requires Inv(c, t)
    requires k in t.members ==> MemberRefers(t, Changed(t.members[k], change)) ==>
               PlacedInProject(t, k.0, Changed(t.members[k], change))
    ensures Inv(c, UpdateMember(t, k, change).0) && Aged(t, UpdateMember(t, k, change).0)
  {
    if k in t.members { WriteMemberKept(c, t, k, Changed(t.members[k], change)); }
  }

  lemma DepartmentStep(c: Catalog, t: Tables, req: Request, l: Local)
    requires Inv(c, t) && IsDepartment(req)
    ensures GoodStep(c, t, req, AdvanceDepartments(t, req, l))
  {
    hide Inv, Aged, DeleteRows, Trim;
    Standstill(t);
    match req
    case CreateDepartment(p, name) => InsertDepartmentKept(c, t, p, name);
    case UpdateDepartment(d, name) => RenameDepartmentKept(c, t, d, name);
    case RemoveDepartment(d) => DeleteRowsKept(c, t, NOTHING.(departments := {d}));
    case CreateDepartmentRole(d, name) => InsertDepartmentRoleKept(c, t, d, Trim(name));
    case UpdateDepartmentRole(r, name) => RenameDepartmentRoleKept(c, t, r, Trim(name));
    case RemoveDepartmentRole(r) => DeleteRowsKept(c, t, NOTHING.(departmentRoles := {r}));
  }

  lemma EntityStep(c: Catalog, t: Tables, req: Request, l: Local)
    requires Inv(c, t) && !IsMembership(req) && !IsGrant(req) && !IsDepartment(req)
    ensures GoodStep(c, t, req, AdvanceEntities(t, req, l))
  {
    hide Inv, Aged, DeleteRows, Trim;
    Standstill(t);
    match req
    case CreateProject(adminId, name) => InsertProjectKept(c, t, name, adminId);
    case RemoveProject(p) => DeleteRowsKept(c, t, NOTHING.(projects := {p}));
    case RemoveAdmin(adminId) => DeleteRowsKept(c, t, NOTHING.(projects := ProjectsOf(t, adminId)));
    case CreateUser(email) => InsertUserKept(c, t, email);
    case RemoveUser(u) => DeleteRowsKept(c, t, NOTHING.(users := {u}));
    case CreateRole(p, name) => InsertProjectRoleKept(c, t, p, Trim(name));
    case UpdateRole(r, name) => RenameProjectRoleKept(c, t, r, Trim(name));
    case RemoveRole(r) => DeleteRowsKept(c, t, NOTHING.(projectRoles := {r}));
  }

  lemma StoredGrantIsSound(c: Catalog, resource: string, flags: Flags)
    requires c.Valid() && c.Allowed(NormalizePolicyResource(c, resource))
    ensures var key := NormalizePolicyResource(c, resource);
            Storable(c, key) && WellFlagged(c, key, BuildPolicyFlags(c, key, flags))
  {
    NormalizePolicyResourceIdempotent(c, resource);
    BuildPolicyFlagsMeaning(c, NormalizePolicyResource(c, resource), flags);
  }

  lemma GrantStep(c: Catalog, t: Tables, req: Request, l: Local)
    requires c.Valid() && Inv(c, t) && Remembers(c, t, req, l) && IsGrant(req)
    ensures GoodStep(c, t, req, AdvanceGrants(c, t, req, l))
  {
    hide Inv, Aged, DeleteRows, Trim;
    Standstill(t);
    match req
    case SetDepartmentRolePolicy(r, resource, flags) => PolicyStep(c, t, req, l);
    case RemoveDepartmentRolePolicy(p) => DeleteRowsKept(c, t, NOTHING.(policies := {p}));
    case SetPermission(r, resource, scope, flags) => PermissionStep(c, t, req, l);
    case RemovePermission(p) => DeleteRowsKept(c, t, NOTHING.(permissions := {p}));
  }

  lemma PolicyStep(c: Catalog, t: Tables, req: Request, l: Local)
    requires c.Valid() && Inv(c, t) && req.SetDepartmentRolePolicy?
    ensures GoodStep(c, t, req, AdvanceGrants(c, t, req, l))
  {
    hide Inv, Aged, DeleteRows, Trim;
    Standstill(t);
    var key := NormalizePolicyResource(c, req.resource);
    if c.Allowed(key) {
      StoredGrantIsSound(c, req.resource, req.flags);
      UpsertPolicyKept(c, t, req.departmentRoleId, key, BuildPolicyFlags(c, key, req.flags));
    }
  }

  lemma PermissionStep(c: Catalog, t: Tables, req: Request, l: Local)
    requires c.Valid() && Inv(c, t) && Remembers(c, t, req, l) && req.SetPermission?
    ensures GoodStep(c, t, req, AdvanceGrants(c, t, req, l))
  {
    var key := NormalizePolicyResource(c, req.resource);
    var row := Permission(req.roleId, req.scope, key, BuildPolicyFlags(c, key, req.flags));
    if c.Allowed(key) {
      StoredGrantIsSound(c, req.resource, req.flags);
      if req.scope.Some? { UpsertPermissionKept(c, t, row); }
      else if l.PermissionRead? && l.found.Some? { WritePermissionKept(c, t, l.found.value, row.flags); }
      else { InsertPermissionKept(c, t, row); }
    }
  }

  lemma AdvanceIsGood(c: Catalog, t: Tables, req: Request, l: Local)
    requires c.Valid() && Inv(c, t) && Remembers(c, t, req, l)
    ensures GoodStep(c, t, req, Advance(c, t, req, l))
  {
    hide Inv, Aged, GoodStep, Remembers, AdvanceMembership, AdvanceDepartments, AdvanceGrants, AdvanceEntities;
    if IsMembership(req) { MembershipStep(c, t, req, l); }
    else if IsDepartment(req) { DepartmentStep(c, t, req, l); }
    else if IsGrant(req) { GrantStep(c, t, req, l); }
    else { EntityStep(c, t, req, l); }
  }

  // ── Interleavings ───────────────────────────────────────────────────────

  datatype Process = Process(req: Request, local: Local)

  /** The tables and the requests in flight. */
  datatype System = System(tables: Tables, running: map<nat, Process>)

  datatype Event =
    | Arrive(pid: nat, req: Request)   // a request comes in
    | Turn(pid: nat)                   // a request in flight performs its next statement
    | Write(write: TaskWrite)          // a call about tasks performs its write, whatever it checked before

  ghost function Next(c: Catalog, s: System, e: Event): System {
    match e
    case Arrive(pid, req) =>
      if pid in s.running then s else s.(running := s.running[pid := Process(req, Start)])
    case Write(write) => s.(tables := AfterWrite(s.tables, write))
    case Turn(pid) =>
      if pid !in s.running then s
      else
        var process := s.running[pid];
        var (t', progress) := Advance(c, s.tables, process.req, process.local);
        match progress
        case More(l) => System(t', s.running[pid := Process(process.req, l)])
        case Over(_) => System(t', s.running - {pid})
  }

  ghost function Run(c: Catalog, s: System, events: seq<Event>): System {
    if events == [] then s
    else Next(c, Run(c, s, events[..|events| - 1]), events[|events| - 1])
  }

  ghost predicate SystemInv(c: Catalog, s: System) {
    Inv(c, s.tables) && forall pid | pid in s.running :: Remembers(c, s.tables, s.running[pid].req, s.running[pid].local)
  }

  lemma NextKeepsInv(c: Catalog, s: System, e: Event)
    requires c.Valid() && SystemInv(c, s)
    ensures SystemInv(c, Next(c, s, e))
  {
    if e.Turn? && e.pid in s.running {
      var process := s.running[e.pid];
      var t' := Advance(c, s.tables, process.req, process.local).0;
      AdvanceIsGood(c, s.tables, process.req, process.local);
      forall pid | pid in s.running ensures Remembers(c, t', s.running[pid].req, s.running[pid].local) {
        RemembersAged(c, s.tables, t', s.running[pid].req, s.running[pid].local);
      }
    } else if e.Write? {
      TaskWriteKept(c, s.tables, e.write);
      forall pid | pid in s.running ensures Remembers(c, AfterWrite(s.tables, e.write), s.running[pid].req,
          s.running[pid].local) {
        RemembersAged(c, s.tables, AfterWrite(s.tables, e.write), s.running[pid].req, s.running[pid].local);
      }
    }
  }

  lemma {:induction false} RunKeepsInv(c: Catalog, s: System, events: seq<Event>)
    requires c.Valid() && SystemInv(c, s)
    ensures SystemInv(c, Run(c, s, events))
  {
    if events != [] {
      RunKeepsInv(c, s, events[..|events| - 1]);
      NextKeepsInv(c, Run(c, s, events[..|events| - 1]), events[|events| - 1]);
    }
  }

  lemma EmptyIsSound(c: Catalog)
    ensures Inv(c, EMPTY)
  {
  }

  /** The system after the first `n` events of a run from the empty store. */
  ghost function At(c: Catalog, events: seq<Event>, n: nat): System
    requires n <= |events|
  {
    Run(c, System(EMPTY, map[]), events[..n])
  }

  lemma PrefixSteps(c: Catalog, events: seq<Event>, n: nat)
    requires c.Valid() && n < |events|
    ensures Inv(c, At(c, events, n).tables)
    ensures At(c, events, n + 1) == Next(c, At(c, events, n), events[n])
  {
    EmptyIsSound(c);
    RunKeepsInv(c, System(EMPTY, map[]), events[..n]);
    assert events[..n + 1][..n] == events[..n];
    hide Inv, Next;
  }

  /** In every interleaving of the statements of any requests and of any writes about tasks, no foreign key dangles, a
      member's department is one of the member's own project, and a member's department role is a role of exactly that
      department. */
  lemma EveryInterleavingKeepsPlacement(c: Catalog, events: seq<Event>)
    requires c.Valid()
    ensures var t := Run(c, System(EMPTY, map[]), events).tables;
            && ForeignKeys(t)
            && (forall k | k in t.members :: PlacedInProject(t, k.0, t.members[k]))
  {
    EmptyIsSound(c);
    RunKeepsInv(c, System(EMPTY, map[]), events);
  }
}
