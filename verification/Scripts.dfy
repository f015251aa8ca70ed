/** What the requests that build a small store do when they are handled, one after the other. */
module Scripts {
  import opened Wrappers
  import opened Text
  import opened Catalog
  import opened Tables
  import opened Statements
  import opened Requests
  import opened PolicyTables

  lemma HandleAllAppend(c: Catalog, t: Tables, reqs: seq<Request>, req: Request)
    ensures HandleAll(c, t, reqs + [req]) == Handle(c, HandleAll(c, t, reqs), req).0
  {
    assert (reqs + [req])[..|reqs|] == reqs;
  }

  lemma ProjectCreated(c: Catalog, t: Tables, adminId: nat, name: string)
    ensures Handle(c, t, CreateProject(adminId, name)).0 == InsertProject(t, name, adminId)
  {
    Unfold(c, t, CreateProject(adminId, name), Start);
    hide Finish;
  }

  lemma UserCreated(c: Catalog, t: Tables, email: string)
    ensures Handle(c, t, CreateUser(email)).0 == InsertUser(t, email)
  {
    Unfold(c, t, CreateUser(email), Start);
    hide Finish;
  }

  lemma DepartmentCreated(c: Catalog, t: Tables, projectId: nat, name: string)
    requires projectId in t.projects.rows
    ensures Handle(c, t, CreateDepartment(projectId,
              name)).0 == t.(departments := t.departments.Insert(Department(projectId, name)))
  {
    Unfold(c, t, CreateDepartment(projectId, name), Start);
    Unfold(c, t, CreateDepartment(projectId, name), Checked);
    hide Finish;
  }

  lemma RoleCreated(c: Catalog, t: Tables, projectId: nat, name: string)
    requires projectId in t.projects.rows && Trimmed(name) && name != "" && !ProjectRoleNamed(t, projectId, name, None)
    ensures Handle(c, t, CreateRole(projectId,
              name)).0 == t.(projectRoles := t.projectRoles.Insert(ProjectRole(projectId, name)))
  {
    TrimFixed(name);
    Unfold(c, t, CreateRole(projectId, name), Start);
    Unfold(c, t, CreateRole(projectId, name), Checked);
    Unfold(c, t, CreateRole(projectId, name), Unrivalled);
    hide Finish, Trim;
  }

  lemma UserAssigned(c: Catalog, t: Tables, projectId: nat, userId: nat)
    requires projectId in t.projects.rows && userId in t.users.rows && (projectId, userId) !in t.members
    ensures Handle(c, t, AssignUser(projectId,
              userId)).0 == t.(members := t.members[(projectId, userId) := Member(None, None, None)])
  {
    Unfold(c, t, AssignUser(projectId, userId), Start);
    Unfold(c, t, AssignUser(projectId, userId), Checked);
    Unfold(c, t, AssignUser(projectId, userId), Unrivalled);
    hide Finish;
  }

  lemma UserRoleSet(c: Catalog, t: Tables, projectId: nat, userId: nat, roleId: nat)
    requires (projectId, userId) in t.members && roleId in t.projectRoles.rows
    requires t.members[(projectId, userId)] == Member(None, None, None)
    ensures Handle(c, t, SetUserRole(projectId, userId, roleId)).0
            == t.(members := t.members[(projectId, userId) := Member(Some(roleId), None, None)])
  {
    Unfold(c, t, SetUserRole(projectId, userId, roleId), Start);
    hide Finish;
  }

  lemma PermissionSet(c: Catalog, t: Tables, roleId: nat, key: string, scope: Option<nat>, flags: Flags)
    requires Storable(c, key) && WellFlagged(c, key, flags) && c.Valid() && OneRowPerKey(t)
    requires roleId in t.projectRoles.rows && Refers(scope, t.departments)
    requires forall p | p in t.permissions.rows :: PermissionKey(t.permissions.rows[p]) != (roleId, scope, key)
    ensures Handle(c, t, SetPermission(roleId, key, scope, flags)).0
            == t.(permissions := t.permissions.Insert(Permission(roleId, scope, key, flags)))
  {
    SetPermissionIsUpsert(c, t, SetPermission(roleId, key, scope, flags));
    BuildPolicyFlagsMeaning(c, key, flags);
    UpsertFindsPermission(t, Permission(roleId, scope, key, flags), None);
    hide Handle, UpsertPermission, BuildPolicyFlags;
  }

  lemma DepartmentRoleCreated(c: Catalog, t: Tables, departmentId: nat, name: string)
    requires departmentId in t.departments.rows && Trimmed(name) && name != ""
               && !DepartmentRoleNamed(t, departmentId, name, None)
    ensures Handle(c, t, CreateDepartmentRole(departmentId, name)).0
            == t.(departmentRoles := t.departmentRoles.Insert(DepartmentRole(departmentId, name)))
  {
    TrimFixed(name);
    Unfold(c, t, CreateDepartmentRole(departmentId, name), Start);
    Unfold(c, t, CreateDepartmentRole(departmentId, name), Checked);
    hide Finish, Trim;
  }

  lemma UserDepartmentRoleSet(c: Catalog, t: Tables, projectId: nat, userId: nat, r: nat)
    requires (projectId, userId) in t.members && r in t.departmentRoles.rows
    requires t.departmentRoles.rows[r].departmentId in t.departments.rows
    requires t.departments.rows[t.departmentRoles.rows[r].departmentId].projectId == projectId
    requires Refers(t.members[(projectId, userId)].projectRoleId, t.projectRoles)
    ensures var k, d := (projectId, userId), t.departmentRoles.rows[r].departmentId;
            Handle(c, t, SetUserDepartmentRole(projectId, userId, r)).0
            == t.(members := t.members[k := Member(t.members[k].projectRoleId, Some(d), Some(r))])
  {
    Unfold(c, t, SetUserDepartmentRole(projectId, userId, r), Start);
    Unfold(c, t, SetUserDepartmentRole(projectId, userId, r), Checked);
    Unfold(c, t, SetUserDepartmentRole(projectId, userId, r), RoleRead(t.departmentRoles.rows[r].departmentId));
    hide Finish;
  }

  lemma PolicySet(c: Catalog, t: Tables, r: nat, key: string, flags: Flags)
    requires c.Valid() && Storable(c, key) && WellFlagged(c, key, flags) && r in t.departmentRoles.rows
    requires forall p | p in t.policies.rows :: PolicyKey(t.policies.rows[p]) != (r, key)
    ensures Handle(c, t, SetDepartmentRolePolicy(r, key,
              flags)).0 == t.(policies := t.policies.Insert(Policy(r, key, flags)))
  {
    BuildPolicyFlagsMeaning(c, key, flags);
    Unfold(c, t, SetDepartmentRolePolicy(r, key, flags), Start);
    Unfold(c, t, SetDepartmentRolePolicy(r, key, flags), Checked);
    assert FindPolicy(t, (r, key)).None?;
    hide Finish, BuildPolicyFlags;
  }
}
