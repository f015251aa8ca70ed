/** The project service as an object that updates its tables in place, call by call. */
module ProjectService {
  import opened Wrappers
  import opened Text
  import opened Json
  import opened Catalog
  import opened Tables
  import opened Statements
  import opened Requests
  import opened AccessMap
  import opened MemberAccess
  import opened PolicyTables
  import KeyedTables
  import opened TaskSchema
  import opened Tasks
  import opened Memberships
  import opened TaskGates

  // ── What calls handled one at a time keep ───────────────────────────────

  ghost predicate Sound(c: Catalog, t: Tables) {
    Inv(c, t) && OneRowPerKey(t)
  }

  lemma EntriesOnce(t: Tables)
    requires OneRowPerKey(t)
    ensures KeyedTables.OnePerKey(Entries(t))
  {
  }

  lemma HandleKeepsSound(c: Catalog, t: Tables, req: Request)
    requires c.Valid() && Sound(c, t)
    ensures Sound(c, Handle(c, t, req).0)
  {
    FinishKeepsInv(c, t, req, Start);
    EntriesOnce(t);
    var m := KeyedTables.MapOf(Entries(t));
    HandleRefines(c, t, req, m);
    hide Inv, Handle, Represents, Entries;
    var (t', r) := Handle(c, t, req);
    RepresentedOnce(t', LastWriterWins(c, t, t', req, r.Ok?, m));
  }

  lemma SoundPermissionIds(c: Catalog, t: Tables)
    requires Inv(c, t)
    ensures t.tasks.Valid() && ForeignKeys(t)
  {
  }

  lemma TaskTableKeepsSound(c: Catalog, t: Tables, tasks: Table<Task>)
    requires Sound(c, t) && tasks.Valid() && t.tasks.rows.Keys <= tasks.rows.Keys
    requires forall i | i in tasks.rows :: TaskRefers(t, tasks.rows[i])
    ensures Sound(c, t.(tasks := tasks))
  {
    TaskTableKept(c, t, tasks);
    hide Inv;
  }

  /** A write about subtasks. */
  lemma SubTaskWriteKeepsSound(c: Catalog, t: Tables, write: TaskWrite)
    requires Sound(c, t) && (write.InsertSubTask? || write.WriteSubTask? || write.DeleteSubTask?)
    ensures Sound(c, AfterWrite(t, write))
  {
    TaskWriteKept(c, t, write);
    SubTaskWriteLeavesPermissions(t, write);
    hide Inv, AfterWrite;
  }

  lemma SubTaskWriteLeavesPermissions(t: Tables, write: TaskWrite)
    requires write.InsertSubTask? || write.WriteSubTask? || write.DeleteSubTask?
    ensures AfterWrite(t, write).permissions == t.permissions
  {
    hide DeleteRows;
  }

  lemma DeleteKeepsSound(c: Catalog, t: Tables, x: Dead)
    requires Sound(c, t)
    ensures Sound(c, DeleteRows(t, x))
  {
    DeleteRowsKeepsInv(c, t, x);
    SoundPermissionIds(c, t);
    PermissionsAfterDelete(t, x);
    hide Inv, DeleteRows;
  }

  lemma CreateTaskKeepsSound(c: Catalog, lib: Library, t: Tables, p: nat, data: NewTask, viewer: Option<Viewer>,
        access: map<string, Flags>)
    requires Sound(c, t)
    ensures Sound(c, CreateTask(lib, t, p, data, viewer, access).0)
  {
    var t' := CreateTask(lib, t, p, data, viewer, access).0;
    SoundPermissionIds(c, t);
    hide Sound, Access, CanPerform, ResolveResource, StoredSchema;
    if t' != t { TaskTableKeepsSound(c, t, t'.tasks); }
  }

  lemma UpdateTaskKeepsSound(c: Catalog, lib: Library, t: Tables, id: nat, data: TaskChanges, viewer: Option<Viewer>,
        access: map<string, Flags>)
    requires Sound(c, t)
    ensures Sound(c, UpdateTask(lib, t, id, data, viewer, access).0)
  {
    var t' := UpdateTask(lib, t, id, data, viewer, access).0;
    SoundPermissionIds(c, t);
    hide Sound, MayUpdate, Decode;
    if t' != t { TaskTableKeepsSound(c, t, t'.tasks); }
  }

  /** Every handled call, of an administrator or about a task, by whomever, keeps the whole store sound. */
  lemma CallKeepsSound(c: Catalog, lib: Library, t: Tables, call: Call)
    requires c.Valid() && Sound(c, t)
    ensures Sound(c, TaskNext(c, lib, t, call))
  {
    hide Sound, Handle, CreateTask, UpdateTask, DeleteRows, AccessFor, CanPerform;
    match call
    case Administer(req) => HandleKeepsSound(c, t, req);
    case AddTask(p, data, viewer, f) => CreateTaskKeepsSound(c, lib, t, p, data, viewer, AccessFor(c, t, p, viewer, f));
    case EditTask(id, data, viewer, f) =>
      if id in t.tasks.rows { UpdateTaskKeepsSound(c, lib, t, id, data, viewer,
          AccessFor(c, t, t.tasks.rows[id].projectId, viewer, f)); }
    case DropTask(id, viewer, f) => DeleteKeepsSound(c, t, NOTHING.(tasks := {id}));
    case AddSubTask(subtask) => SubTaskWriteKeepsSound(c, t, InsertSubTask(subtask));
    case EditSubTask(id, assignedTo) =>
      if id in t.subtasks.rows { SubTaskWriteKeepsSound(c, t,
          WriteSubTask(id, Patched(t.subtasks.rows[id].assignedTo, assignedTo))); }
    case DropSubTask(id) => SubTaskWriteKeepsSound(c, t, DeleteSubTask(id));
  }

  lemma {:induction false} RunKeepsSound(c: Catalog, lib: Library, t: Tables, calls: seq<Call>)
    requires c.Valid() && Sound(c, t)
    ensures Sound(c, TaskRun(c, lib, t, calls))
  {
    if calls != [] {
      RunKeepsSound(c, lib, t, calls[..|calls| - 1]);
      CallKeepsSound(c, lib, TaskRun(c, lib, t, calls[..|calls| - 1]), calls[|calls| - 1]);
      hide Sound, TaskNext;
    }
  }

  // ── The service ─────────────────────────────────────────────────────────

  class ProjectService {
    const c: Catalog
    const lib: Library
    var projects: Table<Project>
    var users: Table<User>
    var departments: Table<Department>
    var departmentRoles: Table<DepartmentRole>
    var policies: Table<Policy>
    var projectRoles: Table<ProjectRole>
    var permissions: Table<Permission>
    var members: map<(nat, nat), Member>
    var tasks: Table<Task>
    var subtasks: Table<SubTask>

    function Snapshot(): Tables
      reads this
    {
      Tables(projects, users, departments, departmentRoles, policies, projectRoles, permissions, members, tasks, subtasks)
    }

    ghost predicate Valid()
      reads this
    {
      c.Valid() && Sound(c, Snapshot())
    }

    constructor (c: Catalog, lib: Library)
      requires c.Valid()
      ensures Valid() && this.c == c && this.lib == lib && Snapshot() == EMPTY
    {
      this.c, this.lib := c, lib;
      projects, users, departments := EMPTY.projects, EMPTY.users, EMPTY.departments;
      departmentRoles, policies, projectRoles := EMPTY.departmentRoles, EMPTY.policies, EMPTY.projectRoles;
      permissions, members, tasks, subtasks := EMPTY.permissions, EMPTY.members, EMPTY.tasks, EMPTY.subtasks;
      new;
      EmptyIsSound(c);
    }

    /** A delete statement: the rows of `x`, what hangs on them, and the references that are set to null. */
    method DeleteAll(x: Dead)
      modifies this
      ensures Snapshot() == DeleteRows(old(Snapshot()), x)
    {
      hide DeleteRows;
      var t := DeleteRows(Snapshot(), x);
      projects, users, departments, departmentRoles, policies := t.projects, t.users, t.departments, t.departmentRoles,
          t.policies;
      projectRoles, permissions, members, tasks, subtasks := t.projectRoles, t.permissions, t.members, t.tasks, t.subtasks;
    }

    // ── Membership ────────────────────────────────────────────────────────

    method AssignUser(projectId: nat, userId: nat) returns (r: Result<Unit>)
      requires Valid()
      modifies this
      ensures Valid() && (Snapshot(), r) == Handle(c, old(Snapshot()), Request.AssignUser(projectId, userId))
      ensures r.Ok? ==> OnlyMember(old(Snapshot()), Snapshot(), (projectId, userId), Member(None, None, None))
    {
      ghost var t, req := Snapshot(), Request.AssignUser(projectId, userId);
      AssigningMeaning(c, t, projectId, userId);
      HandleKeepsSound(c, t, req);
      Unfold(c, t, req, Start);
      Unfold(c, t, req, Checked);
      Unfold(c, t, req, Unrivalled);
      hide Sound, Finish, OnlyMember;
      if projectId !in projects.rows { return Err(NotFound); }
      if (projectId, userId) in members { return Err(Conflict); }
      if userId !in users.rows { return Err(Dangling); }
      members := members[(projectId, userId) := Member(None, None, None)];
      r := Ok(Done);
    }

    method AssignUserToDepartment(projectId: nat, userId: nat, departmentId: nat) returns (r: Result<Unit>)
      requires Valid()
      modifies this
      ensures Valid()
      ensures (Snapshot(), r) == Handle(c, old(Snapshot()), Request.AssignUserToDepartment(projectId, userId, departmentId))
      ensures r.Ok? ==> OnlyMember(old(Snapshot()), Snapshot(), (projectId, userId),
                                   Member(old(members[(projectId, userId)].projectRoleId), Some(departmentId), None))
    {
      ghost var t, req := Snapshot(), Request.AssignUserToDepartment(projectId, userId, departmentId);
      DepartmentAssigningMeaning(c, t, projectId, userId, departmentId);
      HandleKeepsSound(c, t, req);
      Unfold(c, t, req, Start);
      Unfold(c, t, req, Checked);
      MembersRefer(c, t);
      hide Sound, Finish, OnlyMember;
      if departmentId !in departments.rows { return Err(NotFound); }
      if departments.rows[departmentId].projectId != projectId { return Err(Conflict); }
      r := UpdateMembership((projectId, userId), DepartmentTo(Some(departmentId), None));
    }

    /** One `projectUser.update` whose new references exist. */
    method UpdateMembership(k: (nat, nat), change: Change) returns (r: Result<Unit>)
      requires k in members ==> MemberRefers(Snapshot(), Changed(members[k], change))
      modifies this
      ensures Snapshot() == UpdateMember(old(Snapshot()), k, change).0
                && Over(r) == UpdateMember(old(Snapshot()), k, change).1
    {
      if k !in members { return Err(NotFound); }
      members := members[k := Changed(members[k], change)];
      r := Ok(Done);
    }

    method RemoveUserFromDepartment(projectId: nat, userId: nat) returns (r: Result<Unit>)
      requires Valid()
      modifies this
      ensures Valid() && (Snapshot(), r) == Handle(c, old(Snapshot()), Request.RemoveUserFromDepartment(projectId, userId))
      ensures r.Ok? ==> OnlyMember(old(Snapshot()), Snapshot(), (projectId, userId),
                                   Member(old(members[(projectId, userId)].projectRoleId), None, None))
    {
      ghost var t, req := Snapshot(), Request.RemoveUserFromDepartment(projectId, userId);
      DepartmentLeavingMeaning(c, t, projectId, userId);
      HandleKeepsSound(c, t, req);
      Unfold(c, t, req, Start);
      MembersRefer(c, t);
      hide Sound, Finish, OnlyMember;
      r := UpdateMembership((projectId, userId), DepartmentTo(None, None));
    }

    method SetUserDepartmentRole(projectId: nat, userId: nat, departmentRoleId: nat) returns (r: Result<Unit>)
      requires Valid()
      modifies this
      ensures Valid()
      ensures (Snapshot(), r) == Handle(c, old(Snapshot()),
                Request.SetUserDepartmentRole(projectId, userId, departmentRoleId))
      ensures r.Ok? ==>
                && (projectId, userId) in old(members) && departmentRoleId in old(departmentRoles.rows)
                && OnlyMember(old(Snapshot()), Snapshot(), (projectId, userId),
                           Member(old(members[(projectId, userId)].projectRoleId),
                                  Some(old(departmentRoles.rows[departmentRoleId].departmentId)), Some(departmentRoleId)))
    {
      ghost var t, req := Snapshot(), Request.SetUserDepartmentRole(projectId, userId, departmentRoleId);
      DepartmentRoleSettingMeaning(c, t, projectId, userId, departmentRoleId);
      HandleKeepsSound(c, t, req);
      MembersRefer(c, t);
      SettingIsUpdate(c, t, projectId, userId, departmentRoleId);
      hide Sound, Handle, OnlyMember;
      if (projectId, userId) !in members { return Err(NotFound); }
      if departmentRoleId !in departmentRoles.rows { return Err(NotFound); }
      var departmentId := departmentRoles.rows[departmentRoleId].departmentId;
      if departments.rows[departmentId].projectId != projectId { return Err(Conflict); }
      r := UpdateMembership((projectId, userId), DepartmentTo(Some(departmentId), Some(departmentRoleId)));
    }

    method UnsetUserDepartmentRole(projectId: nat, userId: nat) returns (r: Result<Unit>)
      requires Valid()
      modifies this
      ensures Valid() && (Snapshot(), r) == Handle(c, old(Snapshot()), Request.UnsetUserDepartmentRole(projectId, userId))
      ensures r.Ok? ==>
                && (projectId, userId) in old(members)
                && var m := old(members[(projectId, userId)]);
                   OnlyMember(old(Snapshot()), Snapshot(), (projectId, userId),
                       Member(m.projectRoleId, m.departmentId, None))
    {
      ghost var t, req := Snapshot(), Request.UnsetUserDepartmentRole(projectId, userId);
      DepartmentRoleUnsettingMeaning(c, t, projectId, userId);
      HandleKeepsSound(c, t, req);
      UnsettingIsUpdate(c, t, projectId, userId);
      MembersRefer(c, t);
      hide Sound, Handle, OnlyMember;
      r := UpdateMembership((projectId, userId), DepartmentRoleTo(None));
    }

    // ── Departments ───────────────────────────────────────────────────────

    method CreateDepartment(projectId: nat, name: string) returns (r: Result<Unit>)
      requires Valid()
      modifies this
      ensures Valid() && (Snapshot(), r) == Handle(c, old(Snapshot()), Request.CreateDepartment(projectId, name))
    {
      ghost var t, req := Snapshot(), Request.CreateDepartment(projectId, name);
      HandleKeepsSound(c, t, req);
      Unfold(c, t, req, Start);
      Unfold(c, t, req, Checked);
      hide Sound, Finish;
      if projectId !in projects.rows { return Err(NotFound); }
      departments := departments.Insert(Department(projectId, name));
      r := Ok(Done);
    }

    method RemoveDepartment(departmentId: nat) returns (r: Result<Unit>)
      requires Valid()
      modifies this
      ensures Valid() && (Snapshot(), r) == Handle(c, old(Snapshot()), Request.RemoveDepartment(departmentId))
    {
      ghost var t, req := Snapshot(), Request.RemoveDepartment(departmentId);
      HandleKeepsSound(c, t, req);
      Unfold(c, t, req, Start);
      Unfold(c, t, req, Checked);
      hide Sound, Finish, DeleteRows;
      if departmentId !in departments.rows { return Err(NotFound); }
      DeleteAll(NOTHING.(departments := {departmentId}));
      r := Ok(Done);
    }

    method UpdateDepartmentRole(departmentRoleId: nat, name: string) returns (r: Result<Unit>)
      requires Valid()
      modifies this
      ensures Valid() && (Snapshot(), r) == Handle(c, old(Snapshot()), Request.UpdateDepartmentRole(departmentRoleId, name))
    {
      ghost var t, req := Snapshot(), Request.UpdateDepartmentRole(departmentRoleId, name);
      HandleKeepsSound(c, t, req);
      Unfold(c, t, req, Start);
      if departmentRoleId in t.departmentRoles.rows {
        Unfold(c, t, req, RoleRead(t.departmentRoles.rows[departmentRoleId].departmentId));
      }
      Unfold(c, t, req, Unrivalled);
      hide Sound, Finish, Trim, DepartmentRoleNamed;
      if departmentRoleId !in departmentRoles.rows { return Err(NotFound); }
      var nextName := Trim(name);
      if nextName == "" { return Err(Conflict); }
      var role := departmentRoles.rows[departmentRoleId];
      if DepartmentRoleNamed(Snapshot(), role.departmentId, nextName, Some(departmentRoleId)) { return Err(Conflict); }
      departmentRoles := departmentRoles.Update(departmentRoleId, role.(name := nextName));
      r := Ok(Done);
    }

    method RemoveDepartmentRole(departmentRoleId: nat) returns (r: Result<Unit>)
      requires Valid()
      modifies this
      ensures Valid() && (Snapshot(), r) == Handle(c, old(Snapshot()), Request.RemoveDepartmentRole(departmentRoleId))
    {
      ghost var t, req := Snapshot(), Request.RemoveDepartmentRole(departmentRoleId);
      HandleKeepsSound(c, t, req);
      Unfold(c, t, req, Start);
      Unfold(c, t, req, Checked);
      hide Sound, Finish, DeleteRows;
      if departmentRoleId !in departmentRoles.rows { return Err(NotFound); }
      DeleteAll(NOTHING.(departmentRoles := {departmentRoleId}));
      r := Ok(Done);
    }

    // ── Policies and permissions ──────────────────────────────────────────

    method SetDepartmentRolePolicy(departmentRoleId: nat, resource: string, flags: Flags) returns (r: Result<Unit>)
      requires Valid()
      modifies this
      ensures Valid()
      ensures (Snapshot(), r) == Handle(c, old(Snapshot()),
                Request.SetDepartmentRolePolicy(departmentRoleId, resource, flags))
    {
      ghost var t, req := Snapshot(), Request.SetDepartmentRolePolicy(departmentRoleId, resource, flags);
      hide Sound, Handle, UpsertPolicy, NormalizePolicyResource, BuildPolicyFlags;
      HandleKeepsSound(c, t, req);
      SetPolicyIsUpsert(c, t, req);
      OnePolicyPerKey(c, t);
      if departmentRoleId !in departmentRoles.rows { return Err(NotFound); }
      var normalized := NormalizePolicyResource(c, resource);
      if normalized == "" { return Err(Conflict); }
      if !c.Allowed(normalized) { return Err(Conflict); }
      var policyFlags := BuildPolicyFlags(c, normalized, flags);
      if p :| p in policies.rows && PolicyKey(policies.rows[p]) == (departmentRoleId, normalized) {
        UpsertFindsPolicy(t, Policy(departmentRoleId, normalized, policyFlags), Some(p));
        policies := policies.Update(p, policies.rows[p].(flags := policyFlags));
      } else {
        UpsertFindsPolicy(t, Policy(departmentRoleId, normalized, policyFlags), None);
        policies := policies.Insert(Policy(departmentRoleId, normalized, policyFlags));
      }
      r := Ok(Done);
    }

    method SetPermission(roleId: nat, resource: string, scope: Option<nat>, flags: Flags) returns (r: Result<Unit>)
      requires Valid()
      modifies this
      ensures Valid() && (Snapshot(), r) == Handle(c, old(Snapshot()), Request.SetPermission(roleId, resource, scope, flags))
    {
      ghost var t, req := Snapshot(), Request.SetPermission(roleId, resource, scope, flags);
      hide Inv, Handle, UpsertPermission, OneRowPerKey, NormalizePolicyResource, BuildPolicyFlags, PermissionKey;
      HandleKeepsSound(c, t, req);
      SetPermissionIsUpsert(c, t, req);
      var normalized := NormalizePolicyResource(c, resource);
      if !c.Allowed(normalized) { return Err(Conflict); }
      var policyFlags := BuildPolicyFlags(c, normalized, flags);
      var row := Permission(roleId, scope, normalized, policyFlags);
      if p :| p in permissions.rows && PermissionKey(permissions.rows[p]) == PermissionKey(row) {
        UpsertFindsPermission(t, row, Some(p));
        permissions := permissions.Update(p, permissions.rows[p].(flags := policyFlags));
      } else {
        UpsertFindsPermission(t, row, None);
        if roleId !in projectRoles.rows || !Refers(scope, departments) { return Err(Dangling); }
        permissions := permissions.Insert(row);
      }
      r := Ok(Done);
    }

    method RemovePermission(permissionId: nat) returns (r: Result<Unit>)
      requires Valid()
      modifies this
      ensures Valid() && (Snapshot(), r) == Handle(c, old(Snapshot()), Request.RemovePermission(permissionId))
    {
      ghost var t, req := Snapshot(), Request.RemovePermission(permissionId);
      HandleKeepsSound(c, t, req);
      Unfold(c, t, req, Start);
      Unfold(c, t, req, Checked);
      hide Sound, Finish, DeleteRows;
      if permissionId !in permissions.rows { return Err(NotFound); }
      DeleteAll(NOTHING.(permissions := {permissionId}));
      r := Ok(Done);
    }

    // ── Tasks ─────────────────────────────────────────────────────────────

    /** `getProjectUserContext`: the membership and its access map, built from what the database answered. */
    method GetProjectUserContext(projectId: nat, userId: nat, f: Fetch) returns (r: Option<(Member, AccessMap)>)
      requires Valid()
      requires (projectId, userId) in members ==> Answers(Snapshot(), members[(projectId, userId)], f)
      ensures r.Some? <==> (projectId, userId) in members
      ensures r.Some? ==>
                && r.value.0 == members[(projectId, userId)] && fresh(r.value.1)
                && Known(Snapshot(), f) && r.value.1.entries == AccessOf(c, Snapshot(), f)
    {
      if (projectId, userId) !in members { return None; }
      AnswersKnown(Snapshot(), members[(projectId, userId)], f);
      var access := FillAccessMap(c, PolicyGrants(Snapshot(), f.policies), PermissionGrants(Snapshot(), f.permissions));
      r := Some((members[(projectId, userId)], access));
    }

    /** The database answered for the viewer's membership, if there is one. */
    ghost predicate Answered(projectId: nat, viewer: Option<Viewer>, f: Fetch)
      reads this
    {
      (projectId, ViewerId(viewer)) in members ==> Answers(Snapshot(), members[(projectId, ViewerId(viewer))], f)
    }

    method CreateTask(projectId: nat, data: NewTask, viewer: Option<Viewer>, f: Fetch) returns (r: Result<nat>)
      requires Valid() && Answered(projectId, viewer, f)
      modifies this
      ensures Valid()
      ensures (Snapshot(), r) ==
              Tasks.CreateTask(lib, old(Snapshot()), projectId, data, viewer,
                  AccessFor(c, old(Snapshot()), projectId, viewer, f))
      ensures r == Err(Forbidden) <==> !GateOpen(c, lib, old(Snapshot()), projectId, data, viewer, f)
      ensures r.Ok? <==> MayAppear(c, lib, old(Snapshot()), projectId, data, viewer, f)
    {
      ghost var access := AccessFor(c, Snapshot(), projectId, viewer, f);
      CreateMeaning(c, lib, Snapshot(), projectId, data, viewer, f);
      hide GateOpen, MayAppear;
      CreateTaskKeepsSound(c, lib, Snapshot(), projectId, data, viewer, access);
      var defaultDepartmentId: Option<nat>, defaultAssignedTo: Option<nat> := None, None;
      var viewerId := ViewerId(viewer);
      if viewer.Some? && viewer.value.role != "admin" {
        var context := GetProjectUserContext(projectId, viewerId, f);
        hide Sound, CanPerform, ResolveResource, Answers, StoredSchema, Access;
        if context.None? { return Err(Forbidden); }
        var resource := ResolveResource(lib, data.kind, Supplied(data.formSchema));
        if !CanPerform(context.value.1.entries, resource, Create) { return Err(Forbidden); }
        defaultDepartmentId, defaultAssignedTo := context.value.0.departmentId, Some(viewerId);
      }
      hide Sound, CanPerform, ResolveResource, Answers, Access;
      var once := ParseJsonLike(lib, Supplied(data.formSchema));
      var formSchema := once;
      if viewerId != 0 {
        if once.Some? && once.value.Obj? {
          formSchema := Some(Obj(once.value.fields["createdBy" := Num(viewerId as real)]));
        } else {
          formSchema := Some(Obj(map["createdBy" := Num(viewerId as real)]));
        }
      }
      var task := Task(
        projectId, if data.departmentId.Some? then data.departmentId else defaultDepartmentId,
        data.title, data.description, "pending", StoredKind(data.kind), formSchema, None,
        if data.assignedTo.Some? then data.assignedTo else defaultAssignedTo);
      if !TaskRefers(Snapshot(), task) { return Err(Dangling); }
      r := Ok(tasks.next);
      tasks := tasks.Insert(task);
    }

    /** The checks of `updateTask`, in its order. */
    method CheckUpdate(task: Task, data: TaskChanges, viewer: Option<Viewer>, f: Fetch) returns (r: Result<Unit>)
      requires Valid() && Answered(task.projectId, viewer, f)
      ensures r == if MayUpdate(lib, Snapshot(), task, data, viewer, AccessFor(c, Snapshot(), task.projectId, viewer, f))
                   then Ok(Done) else Err(Forbidden)
    {
      if viewer.None? || viewer.value.role == "admin" { return Ok(Done); }
      var viewerId := viewer.value.userId;
      var context := GetProjectUserContext(task.projectId, viewerId, f);
      hide Sound, CanPerform, ResolveResource, Answers, Decode, Access, IsDone, CreatorId;
      if context.None? { return Err(Forbidden); }
      var canEditResource := CanPerform(context.value.1.entries, ResolveResource(lib, Some(task.kind), task.formSchema),
          Edit);
      var isAssignedWorker := IsAssignedWorker(task, viewer);
      var changesDefinitionOrDelegation := !data.title.Keep? || !data.description.Keep? || !data.assignedTo.Keep?;
      var creatorId := CreatorId(lib, task.formSchema);
      if !data.assignedTo.Keep? && creatorId != Some(viewerId as real) { return Err(Forbidden); }
      if data.status.Put? && IsDone(data.status.value) && creatorId != Some(viewerId as real) { return Err(Forbidden); }
      if !canEditResource && !(isAssignedWorker && !changesDefinitionOrDelegation) { return Err(Forbidden); }
      r := Ok(Done);
    }

    method UpdateTask(id: nat, data: TaskChanges, viewer: Option<Viewer>, f: Fetch) returns (r: Result<Unit>)
      requires Valid() && (id in tasks.rows ==> Answered(tasks.rows[id].projectId, viewer, f))
      modifies this
      ensures Valid()
      ensures id !in old(tasks.rows) ==> Snapshot() == old(Snapshot()) && r == Err(NotFound)
      ensures id in old(tasks.rows) ==>
                (Snapshot(), r) ==
                Tasks.UpdateTask(lib, old(Snapshot()), id, data, viewer,
                                 AccessFor(c, old(Snapshot()), old(tasks.rows[id].projectId), viewer, f))
      ensures id in old(tasks.rows) ==>
                (r == Err(Forbidden) <==> !MayChange(c, lib, old(Snapshot()), old(tasks.rows[id]), data, viewer, f))
    {
      if id !in tasks.rows { return Err(NotFound); }
      EditForbiddenIff(c, lib, Snapshot(), id, data, viewer, f);
      hide MayChange;
      var task := tasks.rows[id];
      ghost var access := AccessFor(c, Snapshot(), task.projectId, viewer, f);
      UpdateTaskKeepsSound(c, lib, Snapshot(), id, data, viewer, access);
      r := CheckUpdate(task, data, viewer, f);
      hide Sound, Answers, Decode, MayUpdate, AccessFor;
      if r.Err? { return; }
      var submission := ParseJsonLike(
        lib, if data.submissionData.Put? then Some(Str(data.submissionData.value)) else if data.submissionData.Clear?
            then Some(Null) else None);
      if data.title.Clear? || data.status.Clear? { return Err(BadRequest); }
      if data.title.Put? { task := task.(title := data.title.value); }
      task := task.(description := Patched(task.description, data.description));
      if data.status.Put? { task := task.(status := data.status.value); }
      task := task.(assignedTo := Patched(task.assignedTo, data.assignedTo));
      if submission.Some? { task := task.(submissionData := submission); }
      if !Refers(task.assignedTo, users) { return Err(Dangling); }
      tasks := tasks.Update(id, task);
    }

    method RemoveTask(id: nat, viewer: Option<Viewer>, f: Fetch) returns (r: Result<Unit>)
      requires Valid() && (id in tasks.rows ==> Answered(tasks.rows[id].projectId, viewer, f))
      modifies this
      ensures Valid()
      ensures id !in old(tasks.rows) ==> Snapshot() == old(Snapshot()) && r == Err(NotFound)
      ensures id in old(tasks.rows) ==>
                (Snapshot(), r) ==
                Tasks.RemoveTask(lib, old(Snapshot()), id, viewer,
                    AccessFor(c, old(Snapshot()), old(tasks.rows[id].projectId), viewer, f))
      ensures id in old(tasks.rows) ==>
                (r.Ok? <==> MayDisappear(c, lib, old(Snapshot()), old(tasks.rows[id]), viewer, f))
    {
      if id !in tasks.rows { return Err(NotFound); }
      RemoveMeaning(c, lib, Snapshot(), id, viewer, f);
      hide MayDisappear;
      DeleteKeepsSound(c, Snapshot(), NOTHING.(tasks := {id}));
      var task := tasks.rows[id];
      if viewer.Some? && viewer.value.role != "admin" {
        var context := GetProjectUserContext(task.projectId, viewer.value.userId, f);
        hide Sound, CanPerform, ResolveResource, Answers, Access, DeleteRows;
        if context.None? { return Err(Forbidden); }
        if !CanPerform(context.value.1.entries, ResolveResource(lib, Some(task.kind), task.formSchema),
            Delete) { return Err(Forbidden); }
      }
      hide Sound, CanPerform, ResolveResource, Answers, Access, DeleteRows;
      DeleteAll(NOTHING.(tasks := {id}));
      r := Ok(Done);
    }
  }

  lemma EditForbiddenIff(c: Catalog, lib: Library, t: Tables, id: nat, data: TaskChanges, viewer: Option<Viewer>, f: Fetch)
    requires Inv(c, t) && id in t.tasks.rows
    ensures Tasks.UpdateTask(lib, t, id, data, viewer, AccessFor(c, t, t.tasks.rows[id].projectId, viewer, f)).1
            == Err(Forbidden)
            <==> !MayChange(c, lib, t, t.tasks.rows[id], data, viewer, f)
  {
    EditMeaning(c, lib, t, id, data, viewer, f);
    hide Inv, MayChange, AccessFor, Tasks.UpdateTask;
  }

  lemma UnsettingIsUpdate(c: Catalog, t: Tables, p: nat, u: nat)
    ensures var (t', progress) := UpdateMember(t, (p, u), DepartmentRoleTo(None));
            progress.Over? && Handle(c, t, UnsetUserDepartmentRole(p, u)) == (t', progress.result)
  {
    Unfold(c, t, UnsetUserDepartmentRole(p, u), Start);
    hide Finish;
  }

  lemma SettingIsUpdate(c: Catalog, t: Tables, p: nat, u: nat, r: nat)
    requires AccessKeys(t)
    ensures Handle(c, t, SetUserDepartmentRole(p, u, r)) ==
            if (p, u) !in t.members || r !in t.departmentRoles.rows then (t, Err(NotFound))
            else
              var d := t.departmentRoles.rows[r].departmentId;
              if t.departments.rows[d].projectId != p then (t, Err(Conflict))
              else
                var (t', progress) := UpdateMember(t, (p, u), DepartmentTo(Some(d), Some(r)));
                (t', progress.result)
  {
    Unfold(c, t, SetUserDepartmentRole(p, u, r), Start);
    Unfold(c, t, SetUserDepartmentRole(p, u, r), Checked);
    if r in t.departmentRoles.rows {
      Unfold(c, t, SetUserDepartmentRole(p, u, r), RoleRead(t.departmentRoles.rows[r].departmentId));
    }
    hide Finish;
  }

  lemma MembersRefer(c: Catalog, t: Tables)
    requires Sound(c, t)
    ensures MemberKeys(t) && AccessKeys(t)
  {
  }

  lemma OnePolicyPerKey(c: Catalog, t: Tables)
    requires Sound(c, t)
    ensures forall p, q | p in t.policies.rows && q in t.policies.rows
              && PolicyKey(t.policies.rows[p]) == PolicyKey(t.policies.rows[q]) :: p == q
    ensures AccessKeys(t)
  {
  }
}
