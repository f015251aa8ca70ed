/** Who makes tasks appear, change and disappear, in terms of the stored flags and columns before and after a call. */
module TaskGates {
  import opened Wrappers
  import opened Text
  import opened Json
  import opened Catalog
  import opened Tables
  import opened Statements
  import opened AccessMap
  import opened Requests
  import opened MemberAccess
  import opened PolicyTables
  import opened TaskSchema
  import opened Memberships
  import opened RequestEffects
  import opened Tasks

  // ── The entry that decides ──────────────────────────────────────────────

  /** The entry of the map that decides about a resource: its own when it has one, that of TASK otherwise. */
  function Deciding(access: map<string, Flags>, resource: string): Flags {
    if resource in access then access[resource]
    else if "TASK" in access then access["TASK"]
    else Flags(false, false, false, false)
  }

  /** The resource of a stored task. */
  function ResourceOf(lib: Library, task: Task): string {
    ResolveResource(lib, Some(task.kind), task.formSchema)
  }

  lemma ResolvedIsName(lib: Library, kind: Option<string>, schema: Option<Json>)
    ensures IsNormal(ResolveResource(lib, kind, schema)) && ResolveResource(lib, kind, schema) != ""
  {
    if kind.Some? { TypeNames(kind.value, ""); }
    TaskIsNormal();
    NormalizeMeaning("TASK");
    var parsed := Decode(lib, Decode(lib, schema));
    if parsed.Some? && parsed.value.Obj? { SchemaNames(lib, parsed.value.fields); }
    hide TypeResource, SchemaResource, Normalize, IsNormal, Decode, KindSpells;
  }

  lemma SchemaNames(lib: Library, fields: map<string, Json>)
    ensures IsNormal(SchemaResource(lib, fields))
  {
    hide Normalize, IsNormal;
    NormalizeMeaning(if Present(fields, "resource") then AsString(lib, fields["resource"])
      else if Present(fields, "resourceKey") then AsString(lib, fields["resourceKey"])
      else if Present(fields, "accessResource") then AsString(lib, fields["accessResource"])
      else "");
  }

  lemma DecidingMeaning(access: map<string, Flags>, resource: string)
    requires IsNormal(resource) && resource != ""
    ensures CanPerform(access, resource, View) <==> Deciding(access, resource).canView
    ensures CanPerform(access, resource, Create) <==> Deciding(access, resource).canCreate
    ensures CanPerform(access, resource, Edit) <==> Deciding(access, resource).canEdit
    ensures CanPerform(access, resource, Delete) <==> Deciding(access, resource).canDelete
  {
    NormalizeMeaning(resource);
    CanPerformMeaning(access, resource, View);
    CanPerformMeaning(access, resource, Create);
    CanPerformMeaning(access, resource, Edit);
    CanPerformMeaning(access, resource, Delete);
    hide Normalize, IsNormal, CanPerform;
  }

  /** Calls without a viewer and calls of administrators are not checked. */
  predicate Unchecked(viewer: Option<Viewer>) {
    viewer.Some? ==> viewer.value.role == "admin"
  }

  /** The viewer is a member of the project. */
  predicate IsMember(t: Tables, projectId: nat, viewer: Option<Viewer>) {
    viewer.Some? && (projectId, viewer.value.userId) in t.members
  }

  lemma MembersAreUsers(c: Catalog, t: Tables, projectId: nat, viewer: Option<Viewer>)
    requires Inv(c, t) && (projectId, ViewerId(viewer)) in t.members
    ensures ViewerId(viewer) != 0 && IsMember(t, projectId, viewer)
    ensures projectId in t.projects.rows && viewer.value.userId in t.users.rows
    ensures Refers(t.members[(projectId, ViewerId(viewer))].departmentId, t.departments)
  {
    SoundKeys(c, t);
    hide Inv;
  }

  // ── Appearing ───────────────────────────────────────────────────────────

  /** What a call that creates a task needs: the rows its arguments refer to, and, unless it is unchecked, membership of the
      project and create access by the entry that decides the resource its arguments name. */
  ghost predicate MayAppear(c: Catalog, lib: Library, t: Tables, p: nat, data: NewTask, viewer: Option<Viewer>, f: Fetch) {
    && p in t.projects.rows
    && (data.departmentId.Some? ==> data.departmentId.value in t.departments.rows)
    && (data.assignedTo.Some? ==> data.assignedTo.value in t.users.rows)
    && GateOpen(c, lib, t, p, data, viewer, f)
  }

  ghost predicate GateOpen(c: Catalog, lib: Library, t: Tables, p: nat, data: NewTask, viewer: Option<Viewer>, f: Fetch) {
    || Unchecked(viewer)
    || (&& IsMember(t, p, viewer)
        && Deciding(AccessFor(c, t, p, viewer, f),
                    ResolveResource(lib, data.kind, Supplied(data.formSchema))).canCreate)
  }

  /** The columns of a new task. */
  ghost predicate NewColumns(t: Tables, p: nat, data: NewTask, viewer: Option<Viewer>, task: Task) {
    && task.projectId == p && task.title == data.title && task.description == data.description
    && task.status == "pending" && task.submissionData == None
    && task.kind == (if data.kind.Some? then data.kind.value else "basic")
    && (data.departmentId.Some? ==> task.departmentId == data.departmentId)
    && (data.assignedTo.Some? ==> task.assignedTo == data.assignedTo)
    && (Unchecked(viewer) ==>
          && (data.departmentId.None? ==> task.departmentId == None) && (data.assignedTo.None? ==> task.assignedTo == None))
    && (!Unchecked(viewer) && IsMember(t, p, viewer) ==>
          && (data.departmentId.None? ==> task.departmentId == t.members[(p, viewer.value.userId)].departmentId)
          && (data.assignedTo.None? ==> task.assignedTo == Some(viewer.value.userId)))
  }

  /** A call to create a task: it is let through exactly when its gate is open, it succeeds exactly when the rows it refers to
      exist as well, and it then adds one row with the columns it names, and nothing else. */
  lemma CreateMeaning(c: Catalog, lib: Library, t: Tables, p: nat, data: NewTask, viewer: Option<Viewer>, f: Fetch)
    requires Inv(c, t)
    ensures var (t', r) := CreateTask(lib, t, p, data, viewer, AccessFor(c, t, p, viewer, f));
            && (r == Err(Forbidden) <==> !GateOpen(c, lib, t, p, data, viewer, f))
            && (r.Ok? <==> MayAppear(c, lib, t, p, data, viewer, f))
            && (r.Err? ==> t' == t)
            && (r.Ok? ==>
                  && r.value == t.tasks.next && t.tasks.next in t'.tasks.rows
                  && Gains(t.tasks, t'.tasks, t'.tasks.rows[t.tasks.next])
                  && t' == t.(tasks := t'.tasks)
                  && NewColumns(t, p, data, viewer, t'.tasks.rows[t.tasks.next])
                  && t'.tasks.rows[t.tasks.next].formSchema == StoredSchema(lib, data.formSchema, ViewerId(viewer)))
  {
    if (p, ViewerId(viewer)) in t.members { MembersAreUsers(c, t, p, viewer); }
    GateIsChecked(c, lib, t, p, data, viewer, f);
    hide Inv, AccessFor, ResolveResource, CanPerform, StoredSchema, GateOpen;
  }

  lemma GateIsChecked(c: Catalog, lib: Library, t: Tables, p: nat, data: NewTask, viewer: Option<Viewer>, f: Fetch)
    requires (p, ViewerId(viewer)) in t.members ==> IsMember(t, p, viewer)
    ensures GateOpen(c, lib, t, p, data, viewer, f) <==>
              || Privileged(viewer)
              || (&& (p, ViewerId(viewer)) in t.members
                  && CanPerform(AccessFor(c, t, p, viewer, f), CheckedResource(lib, data), Create))
  {
    ResolvedIsName(lib, data.kind, Supplied(data.formSchema));
    DecidingMeaning(AccessFor(c, t, p, viewer, f), ResolveResource(lib, data.kind, Supplied(data.formSchema)));
    hide AccessFor, ResolveResource, CanPerform, Deciding, IsNormal;
  }

  /** A task appears in a call exactly when the call creates it with the next number and may. What it is guarded by from then
      on is what was checked: a checked viewer is a member of the project, and the entry that decides the resource read back
      from the stored task grants creating. */
  lemma TaskAppearsIff(c: Catalog, lib: Library, t: Tables, call: Call, id: nat)
    requires Inv(c, t) && id !in t.tasks.rows
    ensures var t' := TaskNext(c, lib, t, call);
            && (id in t'.tasks.rows <==>
                  && id == t.tasks.next && call.AddTask?
                  && MayAppear(c, lib, t, call.projectId, call.data, call.viewer, call.fetched))
            && (id in t'.tasks.rows ==>
                  var task := t'.tasks.rows[id];
                  && NewColumns(t, call.projectId, call.data, call.viewer, task)
                  && (Unchecked(call.viewer)
                      || (&& IsMember(t, task.projectId, call.viewer)
                          && Deciding(AccessFor(c, t, task.projectId, call.viewer, call.fetched),
                                      ResourceOf(lib, task)).canCreate)))
  {
    SoundKeys(c, t);
    if call.AddTask? {
      CreateMeaning(c, lib, t, call.projectId, call.data, call.viewer, call.fetched);
      if !Unchecked(call.viewer) && (call.projectId, ViewerId(call.viewer)) in t.members {
        MembersAreUsers(c, t, call.projectId, call.viewer);
        StampSurvives(lib, call.data.kind, call.data.formSchema, ViewerId(call.viewer));
      }
      hide Inv, CreateTask, AccessFor, ResolveResource, StoredSchema, Deciding, CreatorId, ForeignKeys;
    } else {
      NothingAppears(c, lib, t, call);
      hide Inv, TaskNext, MayAppear, ForeignKeys;
    }
  }

  lemma NothingAppears(c: Catalog, lib: Library, t: Tables, call: Call)
    requires t.tasks.Valid() && !call.AddTask?
    ensures forall i | i in TaskNext(c, lib, t, call).tasks.rows :: i in t.tasks.rows
  {
    match call
    case Administer(req) =>
      FinishOnTasks(c, t, req, Start);
      if RootOf(t, req).Some? { TasksAfterDelete(t, RootOf(t, req).value); }
      hide Finish, DeleteRows, RootOf;
    case EditTask(i, data, viewer, f) =>
      hide AccessFor, Handle, MayUpdate;
    case DropTask(i, viewer, f) =>
      TasksAfterDelete(t, NOTHING.(tasks := {i}));
      hide DeleteRows, AccessFor, Handle, CanPerform, ResolveResource;
    case AddSubTask(_) => SubTaskCallsLeaveTasks(c, lib, t, call);
    case EditSubTask(_, _) => SubTaskCallsLeaveTasks(c, lib, t, call);
    case DropSubTask(_) => SubTaskCallsLeaveTasks(c, lib, t, call);
  }

  // ── Disappearing ────────────────────────────────────────────────────────

  /** What removing a task needs: to be unchecked, or membership of its project and delete access by the entry that decides
      its resource. */
  ghost predicate MayDisappear(c: Catalog, lib: Library, t: Tables, task: Task, viewer: Option<Viewer>, f: Fetch) {
    || Unchecked(viewer)
    || (&& IsMember(t, task.projectId, viewer)
        && Deciding(AccessFor(c, t, task.projectId, viewer, f), ResourceOf(lib, task)).canDelete)
  }

  /** A task disappears in a call exactly when the call removes it and may, or removes its project, or the administrator who
      created that project. */
  lemma TaskDisappearsIff(c: Catalog, lib: Library, t: Tables, call: Call, id: nat)
    requires Inv(c, t) && id in t.tasks.rows
    ensures var task := t.tasks.rows[id];
            && task.projectId in t.projects.rows
            && (id !in TaskNext(c, lib, t, call).tasks.rows <==>
                  || (call.DropTask? && call.id == id && MayDisappear(c, lib, t, task, call.viewer, call.fetched))
                  || call == Administer(RemoveProject(task.projectId))
                  || call == Administer(RemoveAdmin(t.projects.rows[task.projectId].createdBy)))
  {
    SoundKeys(c, t);
    match call
    case Administer(req) => AdministratorRemoves(c, t, req, id);
    case AddTask(p, data, viewer, f) =>
      CreateMeaning(c, lib, t, p, data, viewer, f);
      hide Inv, CreateTask, MayAppear, GateOpen, NewColumns;
    case EditTask(i, data, viewer, f) =>
      hide AccessFor, MayUpdate, Inv, MayDisappear;
    case DropTask(i, viewer, f) => DropRemoves(c, lib, t, i, viewer, f, id);
    case AddSubTask(_) => SubTaskCallsLeaveTasks(c, lib, t, call);
    case EditSubTask(_, _) => SubTaskCallsLeaveTasks(c, lib, t, call);
    case DropSubTask(_) => SubTaskCallsLeaveTasks(c, lib, t, call);
  }

  lemma AdministratorRemoves(c: Catalog, t: Tables, req: Request, id: nat)
    requires Inv(c, t) && id in t.tasks.rows
    ensures var p := t.tasks.rows[id].projectId;
            && p in t.projects.rows
            && (id !in Handle(c, t, req).0.tasks.rows <==>
                  req == RemoveProject(p) || req == RemoveAdmin(t.projects.rows[p].createdBy))
  {
    SoundKeys(c, t);
    hide Inv, Handle, RootOf;
    RootProjects(t, req, t.tasks.rows[id].projectId);
    if RootOf(t, req).None? {
      NoRemoval(c, t, req);
    } else if req.UnassignUser? {
      UnassigningMeaning(c, t, req.projectId, req.userId);
    } else {
      RootIsRemoved(t, req);
      RemovalSpares(c, t, req, RootOf(t, req).value, RootThere(t, req), id);
    }
  }

  predicate RootThere(t: Tables, req: Request) {
    match req
    case RemoveProject(p) => p in t.projects.rows
    case RemoveUser(u) => u in t.users.rows
    case RemoveDepartment(d) => d in t.departments.rows
    case RemoveDepartmentRole(r) => r in t.departmentRoles.rows
    case RemoveDepartmentRolePolicy(p) => p in t.policies.rows
    case RemoveRole(r) => r in t.projectRoles.rows
    case RemovePermission(p) => p in t.permissions.rows
    case _ => true
  }

  lemma RootIsRemoved(t: Tables, req: Request)
    requires RootOf(t, req).Some? && !req.UnassignUser?
    ensures Removes(t, req, RootOf(t, req).value, RootThere(t, req))
  {
  }

  lemma RootProjects(t: Tables, req: Request, p: nat)
    requires p in t.projects.rows
    ensures RootOf(t, req).Some? && RootThere(t, req) && p in RootOf(t, req).value.projects
            <==> req == RemoveProject(p) || req == RemoveAdmin(t.projects.rows[p].createdBy)
  {
  }

  /** A removal takes a task along exactly when it deletes the task's project. */
  lemma RemovalSpares(c: Catalog, t: Tables, req: Request, x: Dead, there: bool, id: nat)
    requires Inv(c, t) && id in t.tasks.rows && Removes(t, req, x, there)
    ensures t.tasks.rows[id].projectId in t.projects.rows
    ensures id !in Handle(c, t, req).0.tasks.rows <==> there && t.tasks.rows[id].projectId in x.projects
  {
    SoundKeys(c, t);
    RemovalMeaning(c, t, req, x, there);
    hide Inv, Handle, LeavesDepartments, LeavesRoles, LeavesMembers, LeavesSubTasks;
    assert x.tasks == {};
  }

  lemma NoRemoval(c: Catalog, t: Tables, req: Request)
    requires RootOf(t, req).None?
    ensures Handle(c, t, req).0.tasks == t.tasks
  {
    FinishOnTasks(c, t, req, Start);
    hide Finish;
  }

  lemma DropRemoves(c: Catalog, lib: Library, t: Tables, i: nat, viewer: Option<Viewer>, f: Fetch, id: nat)
    requires Inv(c, t) && id in t.tasks.rows
    ensures id !in TaskNext(c, lib, t, DropTask(i, viewer, f)).tasks.rows <==>
              i == id && MayDisappear(c, lib, t, t.tasks.rows[id], viewer, f)
  {
    hide Inv, RemoveTask, MayDisappear, Leaves, AccessFor;
    if i in t.tasks.rows { RemoveMeaning(c, lib, t, i, viewer, f); }
  }

  lemma OneTaskGoes(t: Tables, id: nat, t': Tables)
    requires ForeignKeys(t) && Leaves(t, NOTHING.(tasks := {id}), t')
    ensures forall other | other in t.tasks.rows :: other in t'.tasks.rows <==> other != id
  {
    hide LeavesDepartments, LeavesRoles, LeavesMembers, LeavesSubTasks;
  }

  /** A call to remove a task: it succeeds exactly when the viewer may, and then deletes the task and its subtasks. */
  lemma RemoveMeaning(c: Catalog, lib: Library, t: Tables, id: nat, viewer: Option<Viewer>, f: Fetch)
    requires Inv(c, t) && id in t.tasks.rows
    ensures var (t', r) := RemoveTask(lib, t, id, viewer, AccessFor(c, t, t.tasks.rows[id].projectId, viewer, f));
            if MayDisappear(c, lib, t, t.tasks.rows[id], viewer, f) then
              && r == Ok(Done) && Leaves(t, NOTHING.(tasks := {id}), t')
              && (forall other | other in t.tasks.rows :: other in t'.tasks.rows <==> other != id)
            else r == Err(Forbidden) && t' == t
  {
    var task := t.tasks.rows[id];
    SoundKeys(c, t);
    DeleteMeaning(t, NOTHING.(tasks := {id}));
    OneTaskGoes(t, id, DeleteRows(t, NOTHING.(tasks := {id})));
    if (task.projectId, ViewerId(viewer)) in t.members { MembersAreUsers(c, t, task.projectId, viewer); }
    RemovalIsChecked(c, lib, t, task, viewer, f);
    hide Inv, AccessFor, ResolveResource, CanPerform, MayDisappear, Leaves, DeleteRows, ForeignKeys;
  }

  lemma RemovalIsChecked(c: Catalog, lib: Library, t: Tables, task: Task, viewer: Option<Viewer>, f: Fetch)
    requires (task.projectId, ViewerId(viewer)) in t.members ==> IsMember(t, task.projectId, viewer)
    ensures MayDisappear(c, lib, t, task, viewer, f) <==>
              || Privileged(viewer)
              || (&& (task.projectId, ViewerId(viewer)) in t.members
                  && CanPerform(AccessFor(c, t, task.projectId, viewer, f), ResourceOf(lib, task), Delete))
  {
    ResolvedIsName(lib, Some(task.kind), task.formSchema);
    DecidingMeaning(AccessFor(c, t, task.projectId, viewer, f), ResourceOf(lib, task));
    hide AccessFor, ResolveResource, CanPerform, Deciding, IsNormal;
  }

  // ── Changing ────────────────────────────────────────────────────────────

  /** The viewer's number is the one stamped on the task. */
  predicate Stamped(lib: Library, task: Task, viewer: Option<Viewer>) {
    viewer.Some? && CreatorId(lib, task.formSchema) == Some(viewer.value.userId as real)
  }

  /** The status reads `done`, in any case. */
  predicate ReadsDone(status: string) {
    |status| == 4 && forall i | 0 <= i < 4 :: SameLetter(status[i], "done"[i])
  }

  /** What an edit needs, unless it is unchecked: membership; the creator's number, to name an assignee or a done status; and
      edit access by the entry that decides the task's resource, or to be assigned to the task and touch neither title,
      description nor assignee. */
  ghost predicate MayChange(c: Catalog, lib: Library, t: Tables, task: Task, data: TaskChanges, viewer: Option<Viewer>,
        f: Fetch) {
    || Unchecked(viewer)
    || (&& IsMember(t, task.projectId, viewer)
        && (data.assignedTo != Keep ==> Stamped(lib, task, viewer))
        && (data.status.Put? && ReadsDone(data.status.value) ==> Stamped(lib, task, viewer))
        && (|| Deciding(AccessFor(c, t, task.projectId, viewer, f), ResourceOf(lib, task)).canEdit
            || (&& task.assignedTo == Some(viewer.value.userId)
                && data.title == Keep && data.description == Keep && data.assignedTo == Keep)))
  }

  /** The columns an edit leaves: those it names get what it gives, the others stay. Submission data that reads as nothing
      leaves the stored data. */
  predicate Edited(lib: Library, before: Task, data: TaskChanges, after: Task) {
    && after.projectId == before.projectId && after.departmentId == before.departmentId
    && after.kind == before.kind && after.formSchema == before.formSchema
    && (match data.title case Put(v) => after.title == v case _ => after.title == before.title)
    && (match data.status case Put(v) => after.status == v case _ => after.status == before.status)
    && (match data.description case Put(v) => after.description == Some(v) case Clear => after.description == None
        case Keep => after.description == before.description)
    && (match data.assignedTo case Put(v) => after.assignedTo == Some(v) case Clear => after.assignedTo == None
        case Keep => after.assignedTo == before.assignedTo)
    && (data.submissionData == Keep ==> after.submissionData == before.submissionData)
    && (data.submissionData == Clear ==> after.submissionData == Some(Null))
    && (data.submissionData.Put? ==>
          var read := Decode(lib, Decode(lib, Some(Str(data.submissionData.value))));
          after.submissionData == if read.None? then before.submissionData else read)
  }

  /** A call to edit a task: it is let through exactly when the viewer may, it succeeds exactly when it clears no column that
      must hold something and names an assignee who exists, and it then writes the columns it names, and nothing else. */
  lemma EditMeaning(c: Catalog, lib: Library, t: Tables, id: nat, data: TaskChanges, viewer: Option<Viewer>, f: Fetch)
    requires Inv(c, t) && id in t.tasks.rows
    ensures var before := t.tasks.rows[id];
            var (t', r) := UpdateTask(lib, t, id, data, viewer, AccessFor(c, t, before.projectId, viewer, f));
            && (r == Err(Forbidden) <==> !MayChange(c, lib, t, before, data, viewer, f))
            && (r.Ok? <==>
                  && MayChange(c, lib, t, before, data, viewer, f)
                  && data.title != Clear && data.status != Clear
                  && (data.assignedTo.Put? ==> data.assignedTo.value in t.users.rows))
            && (r.Err? ==> t' == t)
            && (r.Ok? ==>
                  && id in t'.tasks.rows && Rewrites(t.tasks, t'.tasks, id, t'.tasks.rows[id])
                  && t' == t.(tasks := t'.tasks)
                  && Edited(lib, before, data, t'.tasks.rows[id]))
  {
    var task := t.tasks.rows[id];
    if (task.projectId, ViewerId(viewer)) in t.members { MembersAreUsers(c, t, task.projectId, viewer); }
    EditIsChecked(c, lib, t, task, data, viewer, f);
    TaskRefersNow(c, t, id);
    EditedColumns(lib, task, data);
    hide Inv, AccessFor, MayChange, MayUpdate, Tasks.Change, Edited;
  }

  lemma TaskRefersNow(c: Catalog, t: Tables, id: nat)
    requires Inv(c, t) && id in t.tasks.rows
    ensures Refers(t.tasks.rows[id].assignedTo, t.users)
  {
    SoundKeys(c, t);
    hide Inv;
  }

  lemma EditedColumns(lib: Library, task: Task, data: TaskChanges)
    ensures data.title != Clear && data.status != Clear ==> Edited(lib, task, data, Tasks.Change(lib, task, data))
    ensures Tasks.Change(lib, task, data).assignedTo ==
            match data.assignedTo case Put(v) => Some(v) case Clear => None case Keep => task.assignedTo
  {
  }

  lemma EditIsChecked(c: Catalog, lib: Library, t: Tables, task: Task, data: TaskChanges, viewer: Option<Viewer>, f: Fetch)
    requires (task.projectId, ViewerId(viewer)) in t.members ==>
               ViewerId(viewer) != 0 && IsMember(t, task.projectId, viewer)
    ensures MayChange(c, lib, t, task, data, viewer, f) <==>
              MayUpdate(lib, t, task, data, viewer, AccessFor(c, t, task.projectId, viewer, f))
  {
    ResolvedIsName(lib, Some(task.kind), task.formSchema);
    DecidingMeaning(AccessFor(c, t, task.projectId, viewer, f), ResourceOf(lib, task));
    if data.status.Put? { DoneIsRead(data.status.value); }
    hide AccessFor, ResolveResource, CanPerform, Deciding, IsNormal, CreatorId, IsDone, ReadsDone;
  }

  lemma DoneIsRead(status: string)
    ensures IsDone(status) <==> ReadsDone(status)
  {
    assert |"done"| == 4;
    LowerSpells(status, "done");
    hide ToLower;
  }

  /** The task is as it was, except that a reference to a department or an assignee whose row is gone from `t'` is null. */
  predicate OnlyClears(t': Tables, before: Task, after: Task) {
    && after == before.(departmentId := after.departmentId, assignedTo := after.assignedTo)
    && (after.departmentId == before.departmentId
        || (after.departmentId == None && before.departmentId.value !in t'.departments.rows))
    && (after.assignedTo == before.assignedTo
        || (after.assignedTo == None && before.assignedTo.value !in t'.users.rows))
  }

  /** Any call but its own edit leaves a task as it is, except that a reference to a department or an assignee whose row is
      gone afterwards is null. */
  lemma OtherCallsLeaveTask(c: Catalog, lib: Library, t: Tables, call: Call, id: nat)
    requires Inv(c, t) && id in t.tasks.rows && id in TaskNext(c, lib, t, call).tasks.rows
    requires !(call.EditTask? && call.id == id)
    ensures var t', before := TaskNext(c, lib, t, call), t.tasks.rows[id];
            OnlyClears(t', before, t'.tasks.rows[id])
  {
    SoundKeys(c, t);
    match call
    case Administer(req) =>
      FinishOnTasks(c, t, req, Start);
      DeletesClear(t, if RootOf(t, req).Some? then RootOf(t, req).value else NOTHING, id);
      hide Inv, Handle, Finish, DeleteRows, RootOf;
    case AddTask(p, data, viewer, f) =>
      CreateMeaning(c, lib, t, p, data, viewer, f);
      hide Inv, CreateTask, MayAppear, GateOpen, NewColumns;
    case EditTask(i, data, viewer, f) =>
      hide AccessFor, MayUpdate, Inv;
    case DropTask(i, viewer, f) =>
      DeletesClear(t, NOTHING.(tasks := {i}), id);
      hide Inv, AccessFor, CanPerform, ResolveResource, DeleteRows;
    case AddSubTask(_) => SubTaskCallsLeaveTasks(c, lib, t, call);
    case EditSubTask(_, _) => SubTaskCallsLeaveTasks(c, lib, t, call);
    case DropSubTask(_) => SubTaskCallsLeaveTasks(c, lib, t, call);
  }

  /** A delete clears only references to rows that go with it. */
  lemma DeletesClear(t: Tables, x: Dead, id: nat)
    requires ForeignKeys(t) && id in t.tasks.rows
    ensures var t', before := DeleteRows(t, x), t.tasks.rows[id];
            id in t'.tasks.rows ==> OnlyClears(t', before, t'.tasks.rows[id])
  {
    DeleteLeavesTaskRows(t, x);
    hide DeleteRows, ForeignKeys;
  }

  // ── Lists ───────────────────────────────────────────────────────────────

  /** The list of a project's tasks, of one department when one is asked for (0 asks for none). Unchecked callers are shown
      all of them and strangers nothing. A member is shown those that the entry that decides their resource lets it view:
      when asking for a department, its own or, without one, any; when asking for none, with a department, those of that
      department, of no department, or assigned to itself. */
  lemma ListMeaning(c: Catalog, lib: Library, t: Tables, p: nat, d: nat, viewer: Option<Viewer>, f: Fetch, id: nat)
    requires Inv(c, t)
    ensures var access := AccessFor(c, t, p, viewer, f);
            var listed := GetTasks(lib, t, access, p, d, viewer);
            var asked := && id in t.tasks.rows && t.tasks.rows[id].projectId == p
                         && (d != 0 ==> t.tasks.rows[id].departmentId == Some(d));
            && (Unchecked(viewer) ==> (id in listed <==> asked))
            && (!Unchecked(viewer) && !IsMember(t, p, viewer) ==> id !in listed)
            && (!Unchecked(viewer) && IsMember(t, p, viewer) ==>
                  var own := t.members[(p, viewer.value.userId)].departmentId;
                  (id in listed <==>
                     && asked && Deciding(access, ResourceOf(lib, t.tasks.rows[id])).canView
                     && (d != 0 && own.Some? ==> own == Some(d))
                     && (d == 0 && own.Some? ==>
                           || t.tasks.rows[id].departmentId == own || t.tasks.rows[id].departmentId == None
                           || t.tasks.rows[id].assignedTo == Some(viewer.value.userId))))
  {
    if (p, ViewerId(viewer)) in t.members { MembersAreUsers(c, t, p, viewer); }
    if id in t.tasks.rows {
      var task := t.tasks.rows[id];
      ResolvedIsName(lib, Some(task.kind), task.formSchema);
      DecidingMeaning(AccessFor(c, t, p, viewer, f), ResourceOf(lib, task));
    }
    hide Inv, AccessFor, ResolveResource, CanPerform, Deciding, IsNormal;
  }

  /** The tasks shown inside a project to a member: of those of no department, of the member's, or assigned to the member, the
      ones that the entry that decides their resource lets the member view. */
  lemma ShownMeaning(c: Catalog, lib: Library, t: Tables, access: map<string, Flags>, k: (nat, nat), id: nat)
    requires Inv(c, t) && k in t.members
    ensures id in ShownInProject(lib, t, access, k.0, k.1, t.members[k]) <==>
              && id in t.tasks.rows && t.tasks.rows[id].projectId == k.0
              && Deciding(access, ResourceOf(lib, t.tasks.rows[id])).canView
              && (|| t.tasks.rows[id].departmentId == None
                  || t.tasks.rows[id].departmentId == t.members[k].departmentId
                  || t.tasks.rows[id].assignedTo == Some(k.1))
  {
    SoundKeys(c, t);
    if id in t.tasks.rows {
      var task := t.tasks.rows[id];
      ResolvedIsName(lib, Some(task.kind), task.formSchema);
      DecidingMeaning(access, ResourceOf(lib, task));
    }
    hide Inv, ResolveResource, CanPerform, Deciding, IsNormal, AccessKeys;
  }

  // ── Subtasks ────────────────────────────────────────────────────────────

  /** A subtask is added exactly to a task that is there, with an assignee that is there or none; nothing else changes. */
  lemma SubTaskMeaning(c: Catalog, lib: Library, t: Tables, subtask: SubTask)
    ensures var t' := TaskNext(c, lib, t, AddSubTask(subtask));
            if subtask.taskId in t.tasks.rows && (subtask.assignedTo.Some? ==> subtask.assignedTo.value in t.users.rows)
            then Gains(t.subtasks, t'.subtasks, subtask) && t' == t.(subtasks := t'.subtasks)
            else t' == t
  {
  }

  /** An edit of a subtask changes its assignee when it names one that is there, or none, and nothing else. */
  lemma SubTaskEditMeaning(c: Catalog, lib: Library, t: Tables, id: nat, assignedTo: Patch<nat>)
    requires Inv(c, t)
    ensures var t' := TaskNext(c, lib, t, EditSubTask(id, assignedTo));
            if id in t.subtasks.rows && assignedTo != Keep && (assignedTo.Put? ==> assignedTo.value in t.users.rows) then
              && Rewrites(t.subtasks, t'.subtasks, id,
                          SubTask(t.subtasks.rows[id].taskId, if assignedTo.Put? then Some(assignedTo.value) else None))
              && t' == t.(subtasks := t'.subtasks)
            else t' == t
  {
    SubTaskRefersNow(c, t, id);
    hide Inv;
    if id in t.subtasks.rows { assert t.subtasks.rows[id := t.subtasks.rows[id]] == t.subtasks.rows; }
  }

  /** A removal removes the subtask, and nothing else. */
  lemma SubTaskRemovalMeaning(c: Catalog, lib: Library, t: Tables, id: nat)
    ensures var t' := TaskNext(c, lib, t, DropSubTask(id));
            && Keeps(t.subtasks, t'.subtasks, iset i | i in t.subtasks.rows && i != id) && t' == t.(subtasks := t'.subtasks)
  {
  }

  lemma SubTaskRefersNow(c: Catalog, t: Tables, id: nat)
    requires Inv(c, t)
    ensures id in t.subtasks.rows ==> Refers(t.subtasks.rows[id].assignedTo, t.users)
  {
    SoundKeys(c, t);
    hide Inv;
  }
}
