/** The database statements the project service issues. Each is atomic, fails as a whole when a foreign key or a unique
    index would be violated, and keeps the store sound. */
module Statements {
  import opened Wrappers
  import opened Catalog
  import opened Tables

  // ── Lookups on unique columns ───────────────────────────────────────────

  predicate DepartmentRoleNamed(t: Tables, departmentId: nat, name: string, other: Option<nat>) {
    exists r :: r in t.departmentRoles.rows && t.departmentRoles.rows[r] == DepartmentRole(departmentId, name)
        && Some(r) != other
  }

  predicate ProjectRoleNamed(t: Tables, projectId: nat, name: string, other: Option<nat>) {
    exists r :: r in t.projectRoles.rows && t.projectRoles.rows[r] == ProjectRole(projectId, name) && Some(r) != other
  }

  /** A policy row with the given key, if any. */
  ghost function FindPolicy(t: Tables, key: (nat, string)): (r: Option<nat>)
    ensures r.Some? ==> r.value in t.policies.rows && PolicyKey(t.policies.rows[r.value]) == key
    ensures r.None? ==> forall p | p in t.policies.rows :: PolicyKey(t.policies.rows[p]) != key
  {
    if exists p :: p in t.policies.rows && PolicyKey(t.policies.rows[p]) == key then
      var p :| p in t.policies.rows && PolicyKey(t.policies.rows[p]) == key;
      Some(p)
    else None
  }

  /** A permission row with the given key, if any. */
  ghost function FindPermission(t: Tables, key: (nat, Option<nat>, string)): (r: Option<nat>)
    ensures r.Some? ==> r.value in t.permissions.rows && PermissionKey(t.permissions.rows[r.value]) == key
    ensures r.None? ==> forall p | p in t.permissions.rows :: PermissionKey(t.permissions.rows[p]) != key
  {
    if exists p :: p in t.permissions.rows && PermissionKey(t.permissions.rows[p]) == key then
      var p :| p in t.permissions.rows && PermissionKey(t.permissions.rows[p]) == key;
      Some(p)
    else None
  }

  // ── Writes ──────────────────────────────────────────────────────────────

  function InsertProject(t: Tables, name: string, adminId: nat): Tables {
    t.(projects := t.projects.Insert(Project(name, adminId)))
  }

  function InsertUser(t: Tables, email: string): Tables {
    t.(users := t.users.Insert(User(email)))
  }

  function InsertMember(t: Tables, k: (nat, nat)): Result<Tables> {
    if k in t.members then Err(Conflict)
    else if k.0 !in t.projects.rows || k.1 !in t.users.rows then Err(Dangling)
    else Ok(t.(members := t.members[k := Member(None, None, None)]))
  }

  function WriteMember(t: Tables, k: (nat, nat), m: Member): Result<Tables> {
    if k !in t.members then Err(NotFound)
    else if !MemberRefers(t, m) then Err(Dangling)
    else Ok(t.(members := t.members[k := m]))
  }

  function DeleteMember(t: Tables, k: (nat, nat)): Result<Tables> {
    if k !in t.members then Err(NotFound) else Ok(DeleteRows(t, NOTHING.(members := {k})))
  }

  function InsertDepartment(t: Tables, projectId: nat, name: string): Result<Tables> {
    if projectId !in t.projects.rows then Err(Dangling)
    else Ok(t.(departments := t.departments.Insert(Department(projectId, name))))
  }

  function RenameDepartment(t: Tables, d: nat, name: string): Result<Tables> {
    if d !in t.departments.rows then Err(NotFound)
    else Ok(t.(departments := t.departments.Update(d, t.departments.rows[d].(name := name))))
  }

  function DeleteDepartment(t: Tables, d: nat): Result<Tables> {
    if d !in t.departments.rows then Err(NotFound) else Ok(DeleteRows(t, NOTHING.(departments := {d})))
  }

  function InsertDepartmentRole(t: Tables, departmentId: nat, name: string): Result<Tables> {
    if DepartmentRoleNamed(t, departmentId, name, None) then Err(Conflict)
    else if departmentId !in t.departments.rows then Err(Dangling)
    else Ok(t.(departmentRoles := t.departmentRoles.Insert(DepartmentRole(departmentId, name))))
  }

  function RenameDepartmentRole(t: Tables, r: nat, name: string): Result<Tables> {
    if r !in t.departmentRoles.rows then Err(NotFound)
    else if DepartmentRoleNamed(t, t.departmentRoles.rows[r].departmentId, name, Some(r)) then Err(Conflict)
    else Ok(t.(departmentRoles := t.departmentRoles.Update(r, t.departmentRoles.rows[r].(name := name))))
  }

  function DeleteDepartmentRole(t: Tables, r: nat): Result<Tables> {
    if r !in t.departmentRoles.rows then Err(NotFound) else Ok(DeleteRows(t, NOTHING.(departmentRoles := {r})))
  }

  ghost function UpsertPolicy(t: Tables, role: nat, resource: string, flags: Flags): Result<Tables> {
    var found := FindPolicy(t, (role, resource));
    if found.Some? then Ok(t.(policies := t.policies.Update(found.value, t.policies.rows[found.value].(flags := flags))))
    else if role !in t.departmentRoles.rows then Err(Dangling)
    else Ok(t.(policies := t.policies.Insert(Policy(role, resource, flags))))
  }

  function DeletePolicy(t: Tables, p: nat): Result<Tables> {
    if p !in t.policies.rows then Err(NotFound) else Ok(DeleteRows(t, NOTHING.(policies := {p})))
  }

  function InsertProjectRole(t: Tables, projectId: nat, name: string): Result<Tables> {
    if ProjectRoleNamed(t, projectId, name, None) then Err(Conflict)
    else if projectId !in t.projects.rows then Err(Dangling)
    else Ok(t.(projectRoles := t.projectRoles.Insert(ProjectRole(projectId, name))))
  }

  function RenameProjectRole(t: Tables, r: nat, name: string): Result<Tables> {
    if r !in t.projectRoles.rows then Err(NotFound)
    else if ProjectRoleNamed(t, t.projectRoles.rows[r].projectId, name, Some(r)) then Err(Conflict)
    else Ok(t.(projectRoles := t.projectRoles.Update(r, t.projectRoles.rows[r].(name := name))))
  }

  function DeleteProjectRole(t: Tables, r: nat): Result<Tables> {
    if r !in t.projectRoles.rows then Err(NotFound) else Ok(DeleteRows(t, NOTHING.(projectRoles := {r})))
  }

  function WritePermission(t: Tables, p: nat, flags: Flags): Result<Tables> {
    if p !in t.permissions.rows then Err(NotFound)
    else Ok(t.(permissions := t.permissions.Update(p, t.permissions.rows[p].(flags := flags))))
  }

  function InsertPermission(t: Tables, row: Permission): Result<Tables> {
    if row.departmentId.Some? && (exists p ::
        p in t.permissions.rows && PermissionKey(t.permissions.rows[p]) == PermissionKey(row)) then
      Err(Conflict)
    else if row.projectRoleId !in t.projectRoles.rows || !Refers(row.departmentId, t.departments) then Err(Dangling)
    else Ok(t.(permissions := t.permissions.Insert(row)))
  }

  ghost function UpsertPermission(t: Tables, row: Permission): Result<Tables> {
    var found := FindPermission(t, PermissionKey(row));
    if found.Some? then WritePermission(t, found.value, row.flags) else InsertPermission(t, row)
  }

  function DeletePermission(t: Tables, p: nat): Result<Tables> {
    if p !in t.permissions.rows then Err(NotFound) else Ok(DeleteRows(t, NOTHING.(permissions := {p})))
  }

  function DeleteProject(t: Tables, p: nat): Result<Tables> {
    if p !in t.projects.rows then Err(NotFound) else Ok(DeleteRows(t, NOTHING.(projects := {p})))
  }

  /** The projects that go with an administrator. */
  function ProjectsOf(t: Tables, adminId: nat): set<nat> {
    set p | p in t.projects.rows && t.projects.rows[p].createdBy == adminId
  }

  function DeleteUser(t: Tables, u: nat): Result<Tables> {
    if u !in t.users.rows then Err(NotFound) else Ok(DeleteRows(t, NOTHING.(users := {u})))
  }

  // ── The writes calls about tasks end in ─────────────────────────────────

  datatype TaskWrite =
    | InsertTask(task: Task)
    | WriteTask(id: nat, task: Task)
    | DeleteTask(id: nat)
    | InsertSubTask(subtask: SubTask)
    | WriteSubTask(id: nat, assignedTo: Option<nat>)
    | DeleteSubTask(id: nat)

  /** What such a write leaves; a write the database refuses leaves everything. */
  function AfterWrite(t: Tables, write: TaskWrite): Tables {
    match write
    case InsertTask(task) => if TaskRefers(t, task) then t.(tasks := t.tasks.Insert(task)) else t
    case WriteTask(id, task) =>
      if id in t.tasks.rows && TaskRefers(t, task) then t.(tasks := t.tasks.Update(id, task)) else t
    case DeleteTask(id) => if id in t.tasks.rows then DeleteRows(t, NOTHING.(tasks := {id})) else t
    case InsertSubTask(subtask) => if SubTaskRefers(t, subtask) then t.(subtasks := t.subtasks.Insert(subtask)) else t
    case WriteSubTask(id, assignedTo) =>
      if id in t.subtasks.rows && Refers(assignedTo, t.users) then
        t.(subtasks := t.subtasks.Update(id, t.subtasks.rows[id].(assignedTo := assignedTo)))
      else t
    case DeleteSubTask(id) => t.(subtasks := t.subtasks.Without({id}))
  }

  // ── What time does to rows ──────────────────────────────────────────────

  /** From `t` to `t'` a department never changes project, a department role never changes department, a permission row
      never changes key, and no identifier is used again. */
  ghost predicate Aged(t: Tables, t': Tables) {
    && AgedDepartments(t.departments, t'.departments)
    && AgedDepartmentRoles(t.departmentRoles, t'.departmentRoles)
    && AgedPermissions(t.permissions, t'.permissions)
  }

  ghost predicate AgedDepartments(before: Table<Department>, after: Table<Department>) {
    && before.next <= after.next
    && forall d | d in after.rows ::
         if d in before.rows then after.rows[d].projectId == before.rows[d].projectId else before.next <= d
  }

  ghost predicate AgedDepartmentRoles(before: Table<DepartmentRole>, after: Table<DepartmentRole>) {
    && before.next <= after.next
    && forall r | r in after.rows ::
         if r in before.rows then after.rows[r].departmentId == before.rows[r].departmentId else before.next <= r
  }

  ghost predicate AgedPermissions(before: Table<Permission>, after: Table<Permission>) {
    && before.next <= after.next
    && forall p | p in after.rows ::
         if p in before.rows then PermissionKey(after.rows[p]) == PermissionKey(before.rows[p]) else before.next <= p
  }

  /** A statement did its work: sound before, sound after, and nothing moved. */
  ghost predicate Kept(c: Catalog, t: Tables, r: Result<Tables>) {
    r.Ok? ==> Inv(c, r.value) && Aged(t, r.value)
  }

  lemma DeleteRowsKept(c: Catalog, t: Tables, x: Dead)
    requires Inv(c, t)
    ensures Kept(c, t, Ok(DeleteRows(t, x)))
  {
    DeleteRowsKeepsInv(c, t, x);
    hide Inv;
  }

  // ── What a write of one table leaves of the others ──────────────────────

  /** Every row that can be referred to is still there. */
  predicate Grown(t: Tables, t': Tables) {
    && t.projects.rows.Keys <= t'.projects.rows.Keys && t.users.rows.Keys <= t'.users.rows.Keys
    && t.departments.rows.Keys <= t'.departments.rows.Keys && t.departmentRoles.rows.Keys <= t'.departmentRoles.rows.Keys
    && t.projectRoles.rows.Keys <= t'.projectRoles.rows.Keys && t.tasks.rows.Keys <= t'.tasks.rows.Keys
  }

  lemma AccessKeysStay(t: Tables, t': Tables)
    requires AccessKeys(t) && Grown(t, t')
    ensures t'.departments == t.departments ==> DepartmentKeys(t')
    ensures t'.departmentRoles == t.departmentRoles ==> DepartmentRoleKeys(t')
    ensures t'.policies == t.policies ==> PolicyKeys(t')
    ensures t'.projectRoles == t.projectRoles ==> ProjectRoleKeys(t')
    ensures t'.permissions == t.permissions ==> PermissionKeys(t')
  {
  }

  lemma OtherKeysStay(t: Tables, t': Tables)
    requires MemberKeys(t) && TaskKeys(t) && Grown(t, t')
    ensures t'.members == t.members ==> MemberKeys(t')
    ensures t'.tasks == t.tasks ==> TaskRowKeys(t')
    ensures t'.subtasks == t.subtasks ==> SubTaskKeys(t')
  {
  }

  /** Departments and department roles are still where they were. */
  ghost predicate PlacesStay(t: Tables, t': Tables) {
    && (forall d | d in t.departments.rows ::
        d in t'.departments.rows && t'.departments.rows[d].projectId == t.departments.rows[d].projectId)
    && (forall r | r in t.departmentRoles.rows ::
          r in t'.departmentRoles.rows && t'.departmentRoles.rows[r].departmentId == t.departmentRoles.rows[r].departmentId)
  }

  lemma PlacementStays(t: Tables, t': Tables)
    requires Placement(t) && t'.members == t.members && PlacesStay(t, t')
    ensures Placement(t')
  {
    forall k | k in t'.members ensures PlacedInProject(t', k.0, t'.members[k]) {
      assert PlacedInProject(t, k.0, t.members[k]);
    }
  }

  lemma NothingAges(t: Tables)
    ensures Aged(t, t)
  {
  }

  /** A write of one table is good if that table is: the rest of the store is as sound as it was. */
  lemma TableKept(c: Catalog, t: Tables, t': Tables)
    requires Inv(c, t) && ValidIds(t') && Grown(t, t')
    requires t'.departments != t.departments ==> DepartmentKeys(t') && AgedDepartments(t.departments, t'.departments)
    requires t'.departmentRoles != t.departmentRoles ==>
               && DepartmentRoleKeys(t') && UniqueDepartmentRoles(t'.departmentRoles.rows)
               && AgedDepartmentRoles(t.departmentRoles, t'.departmentRoles)
    requires t'.policies != t.policies ==>
               PolicyKeys(t') && UniquePolicies(t'.policies.rows) && SoundPolicies(c, t'.policies.rows)
    requires t'.projectRoles != t.projectRoles ==> ProjectRoleKeys(t') && UniqueProjectRoles(t'.projectRoles.rows)
    requires t'.permissions != t.permissions ==>
               && PermissionKeys(t') && UniquePermissions(t'.permissions.rows) && SoundPermissions(c, t'.permissions.rows)
               && AgedPermissions(t.permissions, t'.permissions)
    requires if t'.members == t.members then PlacesStay(t, t') else MemberKeys(t') && Placement(t')
    requires t'.tasks != t.tasks ==> TaskRowKeys(t')
    requires t'.subtasks != t.subtasks ==> SubTaskKeys(t')
    ensures Kept(c, t, Ok(t'))
  {
    hide DepartmentKeys, DepartmentRoleKeys, PolicyKeys, ProjectRoleKeys, PermissionKeys, MemberKeys, TaskRowKeys,
        SubTaskKeys;
    hide UniquePolicies, UniquePermissions, UniqueDepartmentRoles, UniqueProjectRoles, SoundPolicies, SoundPermissions;
    hide Placement, PlacesStay, Grown, AgedDepartments, AgedDepartmentRoles, AgedPermissions;
    AccessKeysStay(t, t');
    OtherKeysStay(t, t');
    NothingAges(t);
    if t'.members == t.members { PlacementStays(t, t'); }
  }

  lemma SoundKeys(c: Catalog, t: Tables)
    requires Inv(c, t)
    ensures ValidIds(t) && ForeignKeys(t)
  {
    hide ValidIds, ForeignKeys, Placement, UniqueIndexes, SoundGrants;
  }

  // ── The writes, one by one ──────────────────────────────────────────────

  lemma InsertProjectKept(c: Catalog, t: Tables, name: string, adminId: nat)
    requires Inv(c, t)
    ensures Kept(c, t, Ok(InsertProject(t, name, adminId)))
  {
    SoundKeys(c, t);
    hide Inv, Kept, ForeignKeys;
    TableKept(c, t, InsertProject(t, name, adminId));
  }

  lemma InsertUserKept(c: Catalog, t: Tables, email: string)
    requires Inv(c, t)
    ensures Kept(c, t, Ok(InsertUser(t, email)))
  {
    SoundKeys(c, t);
    hide Inv, Kept, ForeignKeys;
    TableKept(c, t, InsertUser(t, email));
  }

  lemma MembersSound(c: Catalog, t: Tables)
    requires Inv(c, t)
    ensures MemberKeys(t) && Placement(t) && ValidIds(t)
  {
    hide MemberKeys, AccessKeys, TaskKeys, Placement, UniqueIndexes, SoundGrants, ValidIds;
  }

  lemma PutMemberKept(c: Catalog, t: Tables, k: (nat, nat), m: Member)
    requires Inv(c, t) && k.0 in t.projects.rows && k.1 in t.users.rows && MemberRefers(t, m) && PlacedInProject(t, k.0, m)
    ensures Kept(c, t, Ok(t.(members := t.members[k := m])))
  {
    MembersSound(c, t);
    hide Inv, Kept, ValidIds;
    var t' := t.(members := t.members[k := m]);
    forall j | j in t'.members ensures PlacedInProject(t', j.0, t'.members[j]) {
      if j != k { assert PlacedInProject(t, j.0, t.members[j]); }
    }
    TableKept(c, t, t');
  }

  lemma InsertMemberKept(c: Catalog, t: Tables, k: (nat, nat))
    requires Inv(c, t)
    ensures Kept(c, t, InsertMember(t, k))
  {
    hide Inv;
    if InsertMember(t, k).Ok? { PutMemberKept(c, t, k, Member(None, None, None)); }
  }

  lemma WriteMemberKept(c: Catalog, t: Tables, k: (nat, nat), m: Member)
    requires Inv(c, t)
    requires MemberRefers(t, m) ==> PlacedInProject(t, k.0, m)
    ensures Kept(c, t, WriteMember(t, k, m))
  {
    MembersSound(c, t);
    hide Inv, Placement, ValidIds;
    if WriteMember(t, k, m).Ok? { PutMemberKept(c, t, k, m); }
  }

  lemma DepartmentsSound(c: Catalog, t: Tables)
    requires Inv(c, t)
    ensures ValidIds(t) && DepartmentKeys(t) && DepartmentRoleKeys(t) && UniqueDepartmentRoles(t.departmentRoles.rows)
    ensures ProjectRoleKeys(t) && UniqueProjectRoles(t.projectRoles.rows)
  {
    hide ValidIds, DepartmentKeys, DepartmentRoleKeys, PolicyKeys, ProjectRoleKeys, PermissionKeys, MemberKeys, TaskKeys;
    hide UniquePolicies, UniquePermissions, UniqueDepartmentRoles, UniqueProjectRoles, SoundGrants, Placement;
  }

  lemma InsertDepartmentKept(c: Catalog, t: Tables, projectId: nat, name: string)
    requires Inv(c, t)
    ensures Kept(c, t, InsertDepartment(t, projectId, name))
  {
    DepartmentsSound(c, t);
    hide Inv, UniqueDepartmentRoles, UniqueProjectRoles, DepartmentRoleKeys, ProjectRoleKeys;
    var r := InsertDepartment(t, projectId, name);
    if r.Ok? { TableKept(c, t, r.value); }
  }

  lemma RenameDepartmentKept(c: Catalog, t: Tables, d: nat, name: string)
    requires Inv(c, t)
    ensures Kept(c, t, RenameDepartment(t, d, name))
  {
    DepartmentsSound(c, t);
    hide Inv, UniqueDepartmentRoles, UniqueProjectRoles, DepartmentRoleKeys, ProjectRoleKeys;
    var r := RenameDepartment(t, d, name);
    if r.Ok? { TableKept(c, t, r.value); }
  }

  lemma InsertDepartmentRoleKept(c: Catalog, t: Tables, departmentId: nat, name: string)
    requires Inv(c, t)
    ensures Kept(c, t, InsertDepartmentRole(t, departmentId, name))
  {
    DepartmentsSound(c, t);
    hide Inv, DepartmentKeys, UniqueProjectRoles, ProjectRoleKeys;
    var r := InsertDepartmentRole(t, departmentId, name);
    if r.Ok? { TableKept(c, t, r.value); }
  }

  lemma RenameDepartmentRoleKept(c: Catalog, t: Tables, role: nat, name: string)
    requires Inv(c, t)
    ensures Kept(c, t, RenameDepartmentRole(t, role, name))
  {
    DepartmentsSound(c, t);
    hide Inv, DepartmentKeys, UniqueProjectRoles, ProjectRoleKeys;
    var r := RenameDepartmentRole(t, role, name);
    if r.Ok? { TableKept(c, t, r.value); }
  }

  lemma InsertProjectRoleKept(c: Catalog, t: Tables, projectId: nat, name: string)
    requires Inv(c, t)
    ensures Kept(c, t, InsertProjectRole(t, projectId, name))
  {
    DepartmentsSound(c, t);
    hide Inv, DepartmentKeys, UniqueDepartmentRoles, DepartmentRoleKeys;
    var r := InsertProjectRole(t, projectId, name);
    if r.Ok? { TableKept(c, t, r.value); }
  }

  lemma RenameProjectRoleKept(c: Catalog, t: Tables, role: nat, name: string)
    requires Inv(c, t)
    ensures Kept(c, t, RenameProjectRole(t, role, name))
  {
    DepartmentsSound(c, t);
    hide Inv, DepartmentKeys, UniqueDepartmentRoles, DepartmentRoleKeys;
    var r := RenameProjectRole(t, role, name);
    if r.Ok? { TableKept(c, t, r.value); }
  }

  lemma GrantsSound(c: Catalog, t: Tables)
    requires Inv(c, t)
    ensures ValidIds(t) && PolicyKeys(t) && UniquePolicies(t.policies.rows) && SoundPolicies(c, t.policies.rows)
    ensures PermissionKeys(t) && UniquePermissions(t.permissions.rows) && SoundPermissions(c, t.permissions.rows)
  {
    hide ValidIds, DepartmentKeys, DepartmentRoleKeys, PolicyKeys, ProjectRoleKeys, PermissionKeys, MemberKeys, TaskKeys;
    hide UniquePolicies, UniquePermissions, UniqueDepartmentRoles, UniqueProjectRoles, SoundPolicies, SoundPermissions,
        Placement;
  }

  lemma PutUniquePolicy(rows: map<nat, Policy>, p: nat, row: Policy)
    requires UniquePolicies(rows) && forall q | q in rows && q != p :: PolicyKey(rows[q]) != PolicyKey(row)
    ensures UniquePolicies(rows[p := row])
  {
  }

  lemma PutSoundPolicy(c: Catalog, rows: map<nat, Policy>, p: nat, row: Policy)
    requires SoundPolicies(c, rows) && Storable(c, row.resource) && WellFlagged(c, row.resource, row.flags)
    ensures SoundPolicies(c, rows[p := row])
  {
    hide Storable, WellFlagged;
  }

  /** A policy row that was overwritten or added. */
  lemma PutPolicyKept(c: Catalog, t: Tables, p: nat, row: Policy, next: nat)
    requires Inv(c, t) && 0 < p < next && t.policies.next <= next
    requires row.departmentRoleId in t.departmentRoles.rows && Storable(c, row.resource)
               && WellFlagged(c, row.resource, row.flags)
    requires forall q | q in t.policies.rows && q != p :: PolicyKey(t.policies.rows[q]) != PolicyKey(row)
    ensures Kept(c, t, Ok(t.(policies := Table(t.policies.rows[p := row], next))))
  {
    GrantsSound(c, t);
    hide Inv, Kept, Storable, WellFlagged, UniquePolicies, SoundPolicies, UniquePermissions, SoundPermissions,
        PermissionKeys;
    PutUniquePolicy(t.policies.rows, p, row);
    PutSoundPolicy(c, t.policies.rows, p, row);
    TableKept(c, t, t.(policies := Table(t.policies.rows[p := row], next)));
  }

  lemma UpsertPolicyKept(c: Catalog, t: Tables, role: nat, resource: string, flags: Flags)
    requires Inv(c, t) && Storable(c, resource) && WellFlagged(c, resource, flags)
    ensures Kept(c, t, UpsertPolicy(t, role, resource, flags))
  {
    hide Inv, Kept, Storable, WellFlagged, UniquePolicies, UniquePermissions, SoundPolicies, SoundPermissions,
        PermissionKeys, ValidIds;
    GrantsSound(c, t);
    PolicyIds(t);
    var key, row := (role, resource), Policy(role, resource, flags);
    var found := FindPolicy(t, key);
    if found.Some? {
      OthersDiffer(t.policies.rows, found.value, key);
      PutPolicyKept(c, t, found.value, row, t.policies.next);
    } else if role in t.departmentRoles.rows {
      PutPolicyKept(c, t, t.policies.next, row, t.policies.next + 1);
    } else {
      NothingWritten(c, t, Dangling);
    }
  }

  lemma PolicyIds(t: Tables)
    requires ValidIds(t)
    ensures t.policies.Valid()
  {
  }

  lemma OthersDiffer(rows: map<nat, Policy>, p: nat, key: (nat, string))
    requires UniquePolicies(rows) && p in rows && PolicyKey(rows[p]) == key
    ensures forall q | q in rows && q != p :: PolicyKey(rows[q]) != key
  {
  }

  lemma NothingWritten(c: Catalog, t: Tables, f: Failure)
    ensures Kept(c, t, Err(f))
  {
  }

  lemma PutUniquePermission(rows: map<nat, Permission>, p: nat, row: Permission)
    requires UniquePermissions(rows)
    requires row.departmentId.Some? ==> forall q | q in rows && q != p :: PermissionKey(rows[q]) != PermissionKey(row)
    ensures UniquePermissions(rows[p := row])
  {
  }

  lemma PutSoundPermission(c: Catalog, rows: map<nat, Permission>, p: nat, row: Permission)
    requires SoundPermissions(c, rows) && Storable(c, row.resource) && WellFlagged(c, row.resource, row.flags)
    ensures SoundPermissions(c, rows[p := row])
  {
    hide Storable, WellFlagged;
  }

  lemma PutPermissionKeys(t: Tables, p: nat, row: Permission, next: nat)
    requires PermissionKeys(t) && row.projectRoleId in t.projectRoles.rows && Refers(row.departmentId, t.departments)
    requires t.permissions.next <= next
    requires if p in t.permissions.rows then PermissionKey(t.permissions.rows[p]) == PermissionKey(row)
               else t.permissions.next <= p
    ensures PermissionKeys(t.(permissions := Table(t.permissions.rows[p := row], next)))
    ensures AgedPermissions(t.permissions, Table(t.permissions.rows[p := row], next))
  {
  }

  /** A permission row that was overwritten, key and all, or added. */
  lemma PutPermissionKept(c: Catalog, t: Tables, p: nat, row: Permission, next: nat)
    requires Inv(c, t) && 0 < p < next && t.permissions.next <= next
    requires row.projectRoleId in t.projectRoles.rows && Refers(row.departmentId, t.departments)
    requires Storable(c, row.resource) && WellFlagged(c, row.resource, row.flags)
    requires row.departmentId.Some? ==>
               forall q | q in t.permissions.rows && q != p :: PermissionKey(t.permissions.rows[q]) != PermissionKey(row)
    requires if p in t.permissions.rows then PermissionKey(t.permissions.rows[p]) == PermissionKey(row)
               else t.permissions.next <= p
    ensures Kept(c, t, Ok(t.(permissions := Table(t.permissions.rows[p := row], next))))
  {
    GrantsSound(c, t);
    hide Inv, Kept, Storable, WellFlagged, UniquePolicies, SoundPolicies, PolicyKeys, UniquePermissions, SoundPermissions;
    hide PermissionKeys, AgedPermissions;
    PutUniquePermission(t.permissions.rows, p, row);
    PutSoundPermission(c, t.permissions.rows, p, row);
    PutPermissionKeys(t, p, row, next);
    TableKept(c, t, t.(permissions := Table(t.permissions.rows[p := row], next)));
  }

  lemma WritePermissionKept(c: Catalog, t: Tables, p: nat, flags: Flags)
    requires Inv(c, t) && (p in t.permissions.rows ==> WellFlagged(c, t.permissions.rows[p].resource, flags))
    ensures Kept(c, t, WritePermission(t, p, flags))
  {
    GrantsSound(c, t);
    hide Inv, Storable, WellFlagged, UniquePolicies, SoundPolicies, PolicyKeys;
    if p in t.permissions.rows { PutPermissionKept(c, t, p, t.permissions.rows[p].(flags := flags), t.permissions.next); }
  }

  lemma InsertPermissionKept(c: Catalog, t: Tables, row: Permission)
    requires Inv(c, t) && Storable(c, row.resource) && WellFlagged(c, row.resource, row.flags)
    ensures Kept(c, t, InsertPermission(t, row))
  {
    GrantsSound(c, t);
    hide Inv, Storable, WellFlagged, UniquePolicies, SoundPolicies, PolicyKeys, UniquePermissions, SoundPermissions,
        PermissionKeys;
    if InsertPermission(t, row).Ok? { PutPermissionKept(c, t, t.permissions.next, row, t.permissions.next + 1); }
  }

  lemma UpsertPermissionKept(c: Catalog, t: Tables, row: Permission)
    requires Inv(c, t) && Storable(c, row.resource) && WellFlagged(c, row.resource, row.flags)
    ensures Kept(c, t, UpsertPermission(t, row))
  {
    hide Inv, Kept, WritePermission, InsertPermission, WellFlagged, Storable;
    var found := FindPermission(t, PermissionKey(row));
    if found.Some? { WritePermissionKept(c, t, found.value, row.flags); } else { InsertPermissionKept(c, t, row); }
  }

  lemma TaskRowsRefer(c: Catalog, t: Tables)
    requires Inv(c, t)
    ensures ValidIds(t) && TaskRowKeys(t) && SubTaskKeys(t)
  {
    hide ValidIds, AccessKeys, MemberKeys, TaskRowKeys, SubTaskKeys, UniqueIndexes, SoundGrants, Placement;
  }

  lemma TaskTableKept(c: Catalog, t: Tables, tasks: Table<Task>)
    requires Inv(c, t) && tasks.Valid() && t.tasks.rows.Keys <= tasks.rows.Keys
    requires forall i | i in tasks.rows :: TaskRefers(t, tasks.rows[i])
    ensures Kept(c, t, Ok(t.(tasks := tasks)))
  {
    TaskRowsRefer(c, t);
    hide Inv, Kept, SubTaskKeys;
    TableKept(c, t, t.(tasks := tasks));
  }

  lemma SubTaskTableKept(c: Catalog, t: Tables, subtasks: Table<SubTask>)
    requires Inv(c, t) && subtasks.Valid()
    requires forall i | i in subtasks.rows :: SubTaskRefers(t, subtasks.rows[i])
    ensures Kept(c, t, Ok(t.(subtasks := subtasks)))
  {
    TaskRowsRefer(c, t);
    hide Inv, Kept, TaskRowKeys;
    TableKept(c, t, t.(subtasks := subtasks));
  }

  lemma TaskWriteKept(c: Catalog, t: Tables, write: TaskWrite)
    requires Inv(c, t)
    ensures Kept(c, t, Ok(AfterWrite(t, write)))
  {
    TaskRowsRefer(c, t);
    hide Inv, DeleteRows, TaskRefers, SubTaskRefers, Kept;
    var t' := AfterWrite(t, write);
    if write.DeleteTask? && write.id in t.tasks.rows {
      DeleteRowsKept(c, t, NOTHING.(tasks := {write.id}));
    } else if write.InsertTask? || write.WriteTask? || write.DeleteTask? {
      TaskTableKept(c, t, t'.tasks);
    } else {
      SubTaskStillRefers(t, write);
      SubTaskTableKept(c, t, t'.subtasks);
    }
  }

  /** Such a write leaves everything that decides access. */
  lemma TaskWriteLeavesAccess(t: Tables, write: TaskWrite)
    ensures var t' := AfterWrite(t, write);
            && t'.projects == t.projects && t'.departments == t.departments && t'.departmentRoles == t.departmentRoles
            && t'.policies == t.policies && t'.projectRoles == t.projectRoles && t'.permissions == t.permissions
            && t'.members == t.members
  {
    if write.DeleteTask? && write.id in t.tasks.rows { DeleteTaskLeavesAccess(t, write.id); }
    hide DeleteRows;
  }

  lemma DeleteTaskLeavesAccess(t: Tables, id: nat)
    ensures var t' := DeleteRows(t, NOTHING.(tasks := {id}));
            && t'.projects == t.projects && t'.departments == t.departments && t'.departmentRoles == t.departmentRoles
            && t'.policies == t.policies && t'.projectRoles == t.projectRoles && t'.permissions == t.permissions
            && t'.members == t.members
  {
    var x := Cascade(t, NOTHING.(tasks := {id}));
    assert x.projects == x.departments == x.departmentRoles == x.policies == x.projectRoles == x.permissions == {}
        && x.members == {};
    hide Cascade;
    PruneOfTasks(t, x);
  }

  lemma PruneOfTasks(t: Tables, x: Dead)
    requires x.projects == x.departments == x.departmentRoles == x.policies == x.projectRoles == x.permissions == {}
               && x.members == {}
    ensures var t' := Prune(t, x);
            && t'.projects == t.projects && t'.departments == t.departments && t'.departmentRoles == t.departmentRoles
            && t'.policies == t.policies && t'.projectRoles == t.projectRoles && t'.permissions == t.permissions
            && t'.members == t.members
  {
    hide NulledTask;
  }

  lemma SubTaskStillRefers(t: Tables, write: TaskWrite)
    requires t.subtasks.Valid() && forall i | i in t.subtasks.rows :: SubTaskRefers(t, t.subtasks.rows[i])
    requires write.InsertSubTask? || write.WriteSubTask? || write.DeleteSubTask?
    ensures AfterWrite(t, write).subtasks.Valid()
    ensures forall i | i in AfterWrite(t, write).subtasks.rows :: SubTaskRefers(t, AfterWrite(t, write).subtasks.rows[i])
  {
  }
}
