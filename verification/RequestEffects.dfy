/** What the administrator's other requests leave in the tables, and when they succeed, read off the tables before and after
    them. */
module RequestEffects {
  import opened Wrappers
  import opened Text
  import opened Catalog
  import opened Tables
  import opened Statements
  import opened Requests
  import opened PolicyTables
  import opened Memberships

  // ── Deletes ────────────────────────────────────────────────────────────

  /** What is left of a nullable reference: itself if the row it names is still there, null otherwise. */
  function Left<R>(ref: Option<nat>, table: Table<R>): Option<nat> {
    if ref.Some? && ref.value in table.rows then ref else None
  }

  /** Of a table, exactly the rows that `stays` says are left, as they were. */
  ghost predicate Keeps<R>(before: Table<R>, after: Table<R>, stays: iset<nat>) {
    && after.next == before.next
    && (forall id :: id in after.rows <==> id in before.rows && id in stays)
    && (forall id | id in after.rows :: after.rows[id] == before.rows[id])
  }

  /** From `t` to `t'` the rows `x` were deleted: a row is left exactly when it is not one of them and every row it must refer
      to is left. The rows left are as they were, but for nullable references to rows that are gone, which are null. */
  ghost predicate Leaves(t: Tables, x: Dead, t': Tables) {
    LeavesAccess(t, x, t') && LeavesMembers(t, x, t') && LeavesTasks(t, x, t')
  }

  ghost predicate LeavesAccess(t: Tables, x: Dead, t': Tables) {
    && Keeps(t.projects, t'.projects, iset p | p !in x.projects)
    && Keeps(t.users, t'.users, iset u | u !in x.users)
    && LeavesDepartments(t, x, t') && LeavesRoles(t, x, t')
  }

  ghost predicate LeavesDepartments(t: Tables, x: Dead, t': Tables) {
    && Keeps(t.departments, t'.departments,
             iset d | d in t.departments.rows && d !in x.departments && t.departments.rows[d].projectId in t'.projects.rows)
    && Keeps(t.departmentRoles, t'.departmentRoles,
             iset r | r in t.departmentRoles.rows && r !in x.departmentRoles
                      && t.departmentRoles.rows[r].departmentId in t'.departments.rows)
    && Keeps(t.policies, t'.policies,
             iset p | p in t.policies.rows && p !in x.policies
                      && t.policies.rows[p].departmentRoleId in t'.departmentRoles.rows)
  }

  ghost predicate LeavesRoles(t: Tables, x: Dead, t': Tables) {
    && Keeps(t.projectRoles, t'.projectRoles,
             iset r | r in t.projectRoles.rows && r !in x.projectRoles
                      && t.projectRoles.rows[r].projectId in t'.projects.rows)
    && Keeps(t.permissions, t'.permissions,
             iset p | p in t.permissions.rows && p !in x.permissions
                      && t.permissions.rows[p].projectRoleId in t'.projectRoles.rows
                      && (t.permissions.rows[p].departmentId.Some? ==>
                            t.permissions.rows[p].departmentId.value in t'.departments.rows))
  }

  ghost predicate LeavesMembers(t: Tables, x: Dead, t': Tables) {
    && (forall k :: k in t'.members <==>
          k in t.members && k !in x.members && k.0 in t'.projects.rows && k.1 in t'.users.rows)
    && (forall k | k in t'.members ::
          t'.members[k] == Member(Left(t.members[k].projectRoleId, t'.projectRoles),
                                  Left(t.members[k].departmentId, t'.departments),
                                  Left(t.members[k].departmentRoleId, t'.departmentRoles)))
  }

  ghost predicate LeavesTasks(t: Tables, x: Dead, t': Tables) {
    LeavesTaskRows(t, x, t') && LeavesSubTasks(t, x, t')
  }

  ghost predicate LeavesTaskRows(t: Tables, x: Dead, t': Tables) {
    && t'.tasks.next == t.tasks.next
    && (forall i :: i in t'.tasks.rows <==>
          i in t.tasks.rows && i !in x.tasks && t.tasks.rows[i].projectId in t'.projects.rows)
    && (forall i | i in t'.tasks.rows ::
          t'.tasks.rows[i] == t.tasks.rows[i].(departmentId := Left(t.tasks.rows[i].departmentId, t'.departments),
                                               assignedTo := Left(t.tasks.rows[i].assignedTo, t'.users)))
  }

  ghost predicate LeavesSubTasks(t: Tables, x: Dead, t': Tables) {
    && t'.subtasks.next == t.subtasks.next
    && (forall i :: i in t'.subtasks.rows <==>
          i in t.subtasks.rows && i !in x.subtasks && t.subtasks.rows[i].taskId in t'.tasks.rows)
    && (forall i | i in t'.subtasks.rows ::
          t'.subtasks.rows[i] == SubTask(t.subtasks.rows[i].taskId, Left(t.subtasks.rows[i].assignedTo, t'.users)))
  }

  lemma DeleteMeaning(t: Tables, x: Dead)
    requires ForeignKeys(t)
    ensures Leaves(t, x, DeleteRows(t, x))
  {
    DeleteLeavesAccess(t, x);
    DeleteLeavesMembers(t, x);
    DeleteLeavesTasks(t, x);
    hide DeleteRows, LeavesAccess, LeavesMembers, LeavesTasks;
  }

  lemma DeleteLeavesAccess(t: Tables, x: Dead)
    requires ForeignKeys(t)
    ensures LeavesAccess(t, x, DeleteRows(t, x))
  {
    DeleteLeavesDepartments(t, x);
    DeleteLeavesRoles(t, x);
    hide LeavesDepartments, LeavesRoles, ForeignKeys;
  }

  lemma DeleteLeavesDepartments(t: Tables, x: Dead)
    requires ForeignKeys(t)
    ensures LeavesDepartments(t, x, DeleteRows(t, x))
  {
    hide MemberKeys, TaskKeys;
  }

  lemma DeleteLeavesRoles(t: Tables, x: Dead)
    requires ForeignKeys(t)
    ensures LeavesRoles(t, x, DeleteRows(t, x))
  {
    hide MemberKeys, TaskKeys;
  }

  lemma DeleteLeavesMembers(t: Tables, x: Dead)
    requires ForeignKeys(t)
    ensures LeavesMembers(t, x, DeleteRows(t, x))
  {
    hide AccessKeys, TaskKeys;
  }

  lemma DeleteLeavesTasks(t: Tables, x: Dead)
    requires ForeignKeys(t)
    ensures LeavesTasks(t, x, DeleteRows(t, x))
  {
    DeleteLeavesTaskRows(t, x);
    DeleteLeavesSubTasks(t, x);
    hide LeavesTaskRows, LeavesSubTasks, ForeignKeys;
  }

  lemma DeleteLeavesTaskRows(t: Tables, x: Dead)
    requires ForeignKeys(t)
    ensures LeavesTaskRows(t, x, DeleteRows(t, x))
  {
    hide AccessKeys, MemberKeys, SubTaskKeys;
  }

  lemma DeleteLeavesSubTasks(t: Tables, x: Dead)
    requires ForeignKeys(t)
    ensures LeavesSubTasks(t, x, DeleteRows(t, x))
  {
    hide AccessKeys, MemberKeys, TaskRowKeys;
  }

  /** The rows a removal names, and whether they are there. */
  predicate Removes(t: Tables, req: Request, x: Dead, there: bool) {
    || (req.RemoveProject? && x == NOTHING.(projects := {req.projectId}) && there == (req.projectId in t.projects.rows))
    || (req.RemoveUser? && x == NOTHING.(users := {req.userId}) && there == (req.userId in t.users.rows))
    || (req.RemoveDepartment? && x == NOTHING.(departments := {req.departmentId})
        && there == (req.departmentId in t.departments.rows))
    || (req.RemoveDepartmentRole? && x == NOTHING.(departmentRoles := {req.departmentRoleId})
        && there == (req.departmentRoleId in t.departmentRoles.rows))
    || (req.RemoveDepartmentRolePolicy? && x == NOTHING.(policies := {req.policyId})
        && there == (req.policyId in t.policies.rows))
    || (req.RemoveRole? && x == NOTHING.(projectRoles := {req.roleId}) && there == (req.roleId in t.projectRoles.rows))
    || (req.RemovePermission? && x == NOTHING.(permissions := {req.permissionId})
        && there == (req.permissionId in t.permissions.rows))
    || (req.RemoveAdmin? && there
        && x == NOTHING.(projects := set p | p in t.projects.rows && t.projects.rows[p].createdBy == req.adminId))
  }

  /** A removal succeeds exactly when the row it names is there, and then deletes it with whatever hangs on it, and nothing
      else; the removal of an administrator deletes the administrator's projects. */
  lemma RemovalMeaning(c: Catalog, t: Tables, req: Request, x: Dead, there: bool)
    requires Inv(c, t) && Removes(t, req, x, there)
    ensures var (t', r) := Handle(c, t, req);
            if there then r == Ok(Done) && Leaves(t, x, t') else Refused(t, t', r, NotFound)
  {
    SoundKeys(c, t);
    DeleteMeaning(t, x);
    hide Inv, Handle, DeleteRows, Leaves, ForeignKeys, Removes;
    RemovalHandled(c, t, req, x, there);
  }

  lemma RemovalHandled(c: Catalog, t: Tables, req: Request, x: Dead, there: bool)
    requires Removes(t, req, x, there)
    ensures Handle(c, t, req) == if there then (DeleteRows(t, x), Ok(Done)) else (t, Err(NotFound))
  {
    Unfold(c, t, req, Start);
    Unfold(c, t, req, Checked);
    hide Finish, DeleteRows;
    match req
    case RemoveProject(_) =>
    case RemoveAdmin(_) =>
    case RemoveUser(_) =>
    case RemoveDepartment(_) =>
    case RemoveDepartmentRole(_) =>
    case RemoveDepartmentRolePolicy(_) =>
    case RemoveRole(_) =>
    case RemovePermission(_) =>
  }

  // ── Inserts and renames ─────────────────────────────────────────────────

  /** One new row, under the next number. */
  ghost predicate Gains<R>(before: Table<R>, after: Table<R>, row: R) {
    && after.next == before.next + 1
    && (forall id :: id in after.rows <==> id in before.rows || id == before.next)
    && after.rows[before.next] == row
    && (forall id | id in before.rows && id != before.next :: after.rows[id] == before.rows[id])
  }

  /** Row `id` now holds `row`. */
  ghost predicate Rewrites<R>(before: Table<R>, after: Table<R>, id: nat, row: R) {
    && after.next == before.next && id in before.rows
    && (forall other :: other in after.rows <==> other in before.rows)
    && after.rows[id] == row
    && (forall other | other in before.rows && other != id :: after.rows[other] == before.rows[other])
  }

  lemma CreatingMeaning(c: Catalog, t: Tables, adminId: nat, text: string)
    ensures var (t', r) := Handle(c, t, CreateProject(adminId, text));
            r == Ok(Done) && Gains(t.projects, t'.projects, Project(text, adminId)) && t' == t.(projects := t'.projects)
    ensures var (t', r) := Handle(c, t, CreateUser(text));
            r == Ok(Done) && Gains(t.users, t'.users, User(text)) && t' == t.(users := t'.users)
  {
    Unfold(c, t, CreateProject(adminId, text), Start);
    Unfold(c, t, CreateUser(text), Start);
    hide Finish;
  }

  /** A department is added to a project that exists, and renamed, under the name as it was given. */
  lemma DepartmentMeaning(c: Catalog, t: Tables, p: nat, d: nat, name: string)
    ensures var (t', r) := Handle(c, t, CreateDepartment(p, name));
            if p in t.projects.rows then
              r == Ok(Done) && Gains(t.departments, t'.departments, Department(p, name))
              && t' == t.(departments := t'.departments)
            else Refused(t, t', r, NotFound)
    ensures var (t', r) := Handle(c, t, UpdateDepartment(d, name));
            if d in t.departments.rows then
              r == Ok(Done)
              && Rewrites(t.departments, t'.departments, d, Department(t.departments.rows[d].projectId, name))
              && t' == t.(departments := t'.departments)
            else Refused(t, t', r, NotFound)
  {
    Unfold(c, t, CreateDepartment(p, name), Start);
    Unfold(c, t, CreateDepartment(p, name), Checked);
    Unfold(c, t, UpdateDepartment(d, name), Start);
    Unfold(c, t, UpdateDepartment(d, name), Checked);
    hide Finish;
  }

  /** Some role of the department, or of the project, has the name. */
  predicate DepartmentRoleTaken(t: Tables, d: nat, name: string) {
    exists o :: o in t.departmentRoles.rows && t.departmentRoles.rows[o] == DepartmentRole(d, name)
  }

  predicate ProjectRoleTaken(t: Tables, p: nat, name: string) {
    exists o :: o in t.projectRoles.rows && t.projectRoles.rows[o] == ProjectRole(p, name)
  }

  /** A department role is added, and renamed, under its trimmed name: exactly when the department, or the role, is there, the
      name is not blank, and no other role of the department has it. */
  lemma DepartmentRoleMeaning(c: Catalog, t: Tables, d: nat, name: string)
    ensures var (t', r) := Handle(c, t, CreateDepartmentRole(d, name));
            var taken := DepartmentRoleTaken(t, d, Trim(name));
            if d !in t.departments.rows then Refused(t, t', r, NotFound)
            else if Trim(name) == "" || taken then Refused(t, t', r, Conflict)
            else
              r == Ok(Done) && Gains(t.departmentRoles, t'.departmentRoles, DepartmentRole(d, Trim(name)))
              && t' == t.(departmentRoles := t'.departmentRoles)
  {
    Unfold(c, t, CreateDepartmentRole(d, name), Start);
    Unfold(c, t, CreateDepartmentRole(d, name), Checked);
    hide Finish, Trim;
  }

  lemma DepartmentRoleRenamingMeaning(c: Catalog, t: Tables, role: nat, name: string)
    ensures var (t', r) := Handle(c, t, UpdateDepartmentRole(role, name));
            if role !in t.departmentRoles.rows then Refused(t, t', r, NotFound)
            else
              var of := t.departmentRoles.rows[role].departmentId;
              if Trim(name) == "" || exists o :: o != role && o in t.departmentRoles.rows
                                                 && t.departmentRoles.rows[o] == DepartmentRole(of, Trim(name))
              then Refused(t, t', r, Conflict)
              else
                r == Ok(Done) && Rewrites(t.departmentRoles, t'.departmentRoles, role, DepartmentRole(of, Trim(name)))
                && t' == t.(departmentRoles := t'.departmentRoles)
  {
    Unfold(c, t, UpdateDepartmentRole(role, name), Start);
    if role in t.departmentRoles.rows {
      Unfold(c, t, UpdateDepartmentRole(role, name), RoleRead(t.departmentRoles.rows[role].departmentId));
    }
    Unfold(c, t, UpdateDepartmentRole(role, name), Unrivalled);
    hide Finish, Trim;
  }

  /** The same for the roles of a project. */
  lemma ProjectRoleMeaning(c: Catalog, t: Tables, p: nat, name: string)
    ensures var (t', r) := Handle(c, t, CreateRole(p, name));
            var taken := ProjectRoleTaken(t, p, Trim(name));
            if p !in t.projects.rows then Refused(t, t', r, NotFound)
            else if Trim(name) == "" || taken then Refused(t, t', r, Conflict)
            else
              r == Ok(Done) && Gains(t.projectRoles, t'.projectRoles, ProjectRole(p, Trim(name)))
              && t' == t.(projectRoles := t'.projectRoles)
  {
    Unfold(c, t, CreateRole(p, name), Start);
    Unfold(c, t, CreateRole(p, name), Checked);
    Unfold(c, t, CreateRole(p, name), Unrivalled);
    hide Finish, Trim;
  }

  lemma ProjectRoleRenamingMeaning(c: Catalog, t: Tables, role: nat, name: string)
    ensures var (t', r) := Handle(c, t, UpdateRole(role, name));
            if role !in t.projectRoles.rows then Refused(t, t', r, NotFound)
            else
              var of := t.projectRoles.rows[role].projectId;
              if Trim(name) == "" || exists o :: o != role && o in t.projectRoles.rows
                                                 && t.projectRoles.rows[o] == ProjectRole(of, Trim(name))
              then Refused(t, t', r, Conflict)
              else
                r == Ok(Done) && Rewrites(t.projectRoles, t'.projectRoles, role, ProjectRole(of, Trim(name)))
                && t' == t.(projectRoles := t'.projectRoles)
  {
    Unfold(c, t, UpdateRole(role, name), Start);
    if role in t.projectRoles.rows {
      Unfold(c, t, UpdateRole(role, name), RoleRead(t.projectRoles.rows[role].projectId));
    }
    Unfold(c, t, UpdateRole(role, name), Unrivalled);
    hide Finish, Trim;
  }

  // ── Grants ──────────────────────────────────────────────────────────────

  /** What is stored of the flags asked for: on a view-only task just whether it may be viewed; on another task what was
      asked, and viewing with any change; on anything else what was asked. */
  predicate StoredAs(c: Catalog, key: string, asked: Flags, stored: Flags) {
    if key in c.viewOnly then stored == Flags(asked.canView, false, false, false)
    else
      && stored.canCreate == asked.canCreate && stored.canEdit == asked.canEdit && stored.canDelete == asked.canDelete
      && stored.canView == (asked.canView || (key in c.hardcoded && (asked.canCreate || asked.canEdit || asked.canDelete)))
  }

  /** The name a policy write goes by: what the text spells or, when that is an alias, the task it stands for. */
  ghost predicate Named(c: Catalog, resource: string, key: string) {
    exists name :: Spelling(resource, name) && key == if name in c.aliases then c.aliases[name] else name
  }

  ghost predicate Spelling(resource: string, name: string) {
    IsNormal(name) && Spells(resource, name)
  }

  lemma NamedIsResolved(c: Catalog, resource: string, key: string)
    requires c.Valid() && Named(c, resource, key)
    ensures NormalizePolicyResource(c, resource) == key
  {
    var name :| Spelling(resource, name) && key == if name in c.aliases then c.aliases[name] else name;
    NormalizePolicyResourceMeaning(c, resource, name);
  }

  lemma BuiltAsStored(c: Catalog, key: string, asked: Flags)
    requires c.Valid() && c.Allowed(key)
    ensures StoredAs(c, key, asked, BuildPolicyFlags(c, key, asked))
  {
    NormalizeMeaning(key);
  }

  /** The table has one row for the key: one that was there with new flags, or a new one. */
  ghost predicate HoldsPermission(t: Tables, t': Tables, row: Permission) {
    && (forall p | p in t.permissions.rows && PermissionKey(t.permissions.rows[p]) == PermissionKey(row) ::
          Rewrites(t.permissions, t'.permissions, p, row))
    && ((forall p | p in t.permissions.rows :: PermissionKey(t.permissions.rows[p]) != PermissionKey(row)) ==>
          Gains(t.permissions, t'.permissions, row))
    && t' == t.(permissions := t'.permissions)
  }

  ghost predicate HoldsPolicy(t: Tables, t': Tables, row: Policy) {
    && (forall p | p in t.policies.rows && PolicyKey(t.policies.rows[p]) == PolicyKey(row) ::
          Rewrites(t.policies, t'.policies, p, row))
    && ((forall p | p in t.policies.rows :: PolicyKey(t.policies.rows[p]) != PolicyKey(row)) ==>
          Gains(t.policies, t'.policies, row))
    && t' == t.(policies := t'.policies)
  }

  /** A permission is written under the task name its resource stands for, aliases included, exactly when that is an allowed
      name, the role is there, and the department, if one is given. Its row then holds the flags to be stored, and nothing
      else has changed. */
  lemma PermissionMeaning(c: Catalog, t: Tables, role: nat, resource: string, scope: Option<nat>, asked: Flags, key: string,
        stored: Flags)
    requires c.Valid() && Inv(c, t) && OneRowPerKey(t) && Named(c, resource, key) && StoredAs(c, key, asked, stored)
    ensures var (t', r) := Handle(c, t, SetPermission(role, resource, scope, asked));
            if !c.Allowed(key) then Refused(t, t', r, Conflict)
            else if role in t.projectRoles.rows && (scope.Some? ==> scope.value in t.departments.rows) then
              r == Ok(Done) && HoldsPermission(t, t', Permission(role, scope, key, stored))
            else Refused(t, t', r, Dangling)
  {
    NamedIsResolved(c, resource, key);
    SetPermissionIsUpsert(c, t, SetPermission(role, resource, scope, asked));
    if c.Allowed(key) {
      BuiltAsStored(c, key, asked);
      SoundKeys(c, t);
      hide Handle, NormalizePolicyResource, BuildPolicyFlags, Inv, Named;
      UpsertHolds(t, Permission(role, scope, key, stored));
    }
    hide Handle, NormalizePolicyResource, BuildPolicyFlags, Inv, Named;
  }

  lemma UpsertHolds(t: Tables, row: Permission)
    requires ForeignKeys(t) && OneRowPerKey(t)
    ensures var r := UpsertPermission(t, row);
            if row.projectRoleId in t.projectRoles.rows && Refers(row.departmentId, t.departments) then
              r.Ok? && HoldsPermission(t, r.value, row)
            else r == Err(Dangling)
  {
    PermissionPlaces(t);
    hide ForeignKeys;
    if p :| p in t.permissions.rows && PermissionKey(t.permissions.rows[p]) == PermissionKey(row) {
      UpsertFindsPermission(t, row, Some(p));
      hide UpsertPermission;
      assert forall q | q in t.permissions.rows && PermissionKey(t.permissions.rows[q]) == PermissionKey(row) :: q == p;
    } else {
      UpsertFindsPermission(t, row, None);
      hide UpsertPermission;
    }
  }

  /** A policy likewise, exactly when the department role is there and the resource stands for an allowed name. */
  lemma PolicyMeaning(c: Catalog, t: Tables, role: nat, resource: string, asked: Flags, key: string, stored: Flags)
    requires c.Valid() && Inv(c, t) && Named(c, resource, key) && StoredAs(c, key, asked, stored)
    ensures var (t', r) := Handle(c, t, SetDepartmentRolePolicy(role, resource, asked));
            if role !in t.departmentRoles.rows then Refused(t, t', r, NotFound)
            else if !c.Allowed(key) then Refused(t, t', r, Conflict)
            else r == Ok(Done) && HoldsPolicy(t, t', Policy(role, key, stored))
  {
    NamedIsResolved(c, resource, key);
    SetPolicyIsUpsert(c, t, SetDepartmentRolePolicy(role, resource, asked));
    if c.Allowed(key) {
      BuiltAsStored(c, key, asked);
      OnePolicyEach(c, t);
      hide Handle, NormalizePolicyResource, BuildPolicyFlags, Inv, Named;
      if role in t.departmentRoles.rows { UpsertPolicyHolds(t, Policy(role, key, stored)); }
      assert key != "";
    }
    hide Handle, NormalizePolicyResource, BuildPolicyFlags, Inv, Named;
  }

  lemma UpsertPolicyHolds(t: Tables, row: Policy)
    requires UniquePolicies(t.policies.rows) && row.departmentRoleId in t.departmentRoles.rows
    ensures var r := UpsertPolicy(t, row.departmentRoleId, row.resource, row.flags);
            r.Ok? && HoldsPolicy(t, r.value, row)
  {
    if p :| p in t.policies.rows && PolicyKey(t.policies.rows[p]) == PolicyKey(row) {
      UpsertFindsPolicy(t, row, Some(p));
      hide UpsertPolicy;
      assert forall q | q in t.policies.rows && PolicyKey(t.policies.rows[q]) == PolicyKey(row) :: q == p;
    } else {
      UpsertFindsPolicy(t, row, None);
      hide UpsertPolicy;
    }
  }

  lemma OnePolicyEach(c: Catalog, t: Tables)
    requires Inv(c, t)
    ensures UniquePolicies(t.policies.rows)
  {
  }
}
