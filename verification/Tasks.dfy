/** Tasks: who may create, change and remove them, what can happen to one over a run, and who is shown it. */
module Tasks {
  import opened Wrappers
  import opened Text
  import opened Json
  import opened Catalog
  import opened Tables
  import opened Statements
  import opened AccessMap
  import opened Requests
  import opened MemberAccess
  import opened PolicyTables
  import opened TaskSchema

  datatype Viewer = Viewer(userId: nat, role: string)

  /** Calls without a viewer, and administrators, pass every check. */
  predicate Privileged(viewer: Option<Viewer>) {
    viewer.None? || viewer.value.role == "admin"
  }

  function ViewerId(viewer: Option<Viewer>): nat {
    if viewer.Some? then viewer.value.userId else 0
  }

  datatype NewTask = NewTask(
    title: string, description: Option<string>, departmentId: Option<nat>, assignedTo: Option<nat>,
    kind: Option<string>, formSchema: Option<string>)

  /** An argument that was left out, sent as null, or sent with a value. */
  datatype Patch<+T> = Keep | Clear | Put(value: T)

  datatype TaskChanges = TaskChanges(
    title: Patch<string>, description: Patch<string>, status: Patch<string>, assignedTo: Patch<nat>,
        submissionData: Patch<string>)

  predicate IsDone(status: string) {
    ToLower(status) == "done"
  }

  // ── The operations ──────────────────────────────────────────────────────

  /** `createTask`; `access` is the access map of a viewer who needs one. */
  function CreateTask(lib: Library, t: Tables, projectId: nat, data: NewTask, viewer: Option<Viewer>,
        access: map<string, Flags>)
    : (Tables, Result<nat>)
  {
    var k := (projectId, ViewerId(viewer));
    if !Privileged(viewer) && k !in t.members then (t, Err(Forbidden))
    else if !Privileged(viewer) && !CanPerform(access, ResolveResource(lib, data.kind, Supplied(data.formSchema)),
        Create) then
      (t, Err(Forbidden))
    else
      var defaultDepartment := if Privileged(viewer) then None else t.members[k].departmentId;
      var defaultAssignee := if Privileged(viewer) then None else Some(ViewerId(viewer));
      var task := Task(
        projectId,
        if data.departmentId.Some? then data.departmentId else defaultDepartment,
        data.title, data.description, "pending", StoredKind(data.kind),
        StoredSchema(lib, data.formSchema, ViewerId(viewer)), None,
        if data.assignedTo.Some? then data.assignedTo else defaultAssignee);
      if TaskRefers(t, task) then (t.(tasks := t.tasks.Insert(task)), Ok(t.tasks.next)) else (t, Err(Dangling))
  }

  /** `Number(task.assignedTo) === Number(viewer.userId)`. */
  predicate IsAssignedWorker(task: Task, viewer: Option<Viewer>) {
    (if task.assignedTo.Some? then task.assignedTo.value else 0) == ViewerId(viewer)
  }

  predicate IsCreator(lib: Library, task: Task, viewer: Option<Viewer>) {
    CreatorId(lib, task.formSchema) == Some(ViewerId(viewer) as real)
  }

  /** The checks `updateTask` makes before it writes. */
  predicate MayUpdate(lib: Library, t: Tables, task: Task, data: TaskChanges, viewer: Option<Viewer>,
        access: map<string, Flags>) {
    var canEditResource := CanPerform(access, ResolveResource(lib, Some(task.kind), task.formSchema), Edit);
    var changesDefinitionOrDelegation := !data.title.Keep? || !data.description.Keep? || !data.assignedTo.Keep?;
    Privileged(viewer)
    || (&& (task.projectId, ViewerId(viewer)) in t.members
        && (!data.assignedTo.Keep? ==> IsCreator(lib, task, viewer))
        && (data.status.Put? && IsDone(data.status.value) ==> IsCreator(lib, task, viewer))
        && (canEditResource || (IsAssignedWorker(task, viewer) && !changesDefinitionOrDelegation)))
  }

  function Patched<T>(stored: Option<T>, p: Patch<T>): Option<T> {
    match p
    case Keep => stored
    case Clear => None
    case Put(v) => Some(v)
  }

  /** The columns `updateTask` writes. */
  function Change(lib: Library, task: Task, data: TaskChanges): Task {
    var submission := Decode(lib, Decode(lib, if data.submissionData.Put? then Some(Str(data.submissionData.value))
                                              else if data.submissionData.Clear? then Some(Null) else None));
    task.(
      title := if data.title.Put? then data.title.value else task.title,
      description := Patched(task.description, data.description),
      status := if data.status.Put? then data.status.value else task.status,
      assignedTo := Patched(task.assignedTo, data.assignedTo),
      submissionData := if submission.Some? then submission else task.submissionData)
  }

  /** `updateTask`; null is no value for the title or the status column. */
  function UpdateTask(lib: Library, t: Tables, id: nat, data: TaskChanges, viewer: Option<Viewer>, access: map<string,
        Flags>)
    : (Tables, Result<Unit>)
  {
    if id !in t.tasks.rows then (t, Err(NotFound))
    else
      var task := t.tasks.rows[id];
      if !MayUpdate(lib, t, task, data, viewer, access) then (t, Err(Forbidden))
      else if data.title.Clear? || data.status.Clear? then (t, Err(BadRequest))
      else if !Refers(Change(lib, task, data).assignedTo, t.users) then (t, Err(Dangling))
      else (t.(tasks := t.tasks.Update(id, Change(lib, task, data))), Ok(Done))
  }

  /** `removeTask`. */
  function RemoveTask(lib: Library, t: Tables, id: nat, viewer: Option<Viewer>, access: map<string, Flags>): (Tables,
        Result<Unit>) {
    if id !in t.tasks.rows then (t, Err(NotFound))
    else
      var task := t.tasks.rows[id];
      if !Privileged(viewer)
         && ((task.projectId, ViewerId(viewer)) !in t.members
             || !CanPerform(access, ResolveResource(lib, Some(task.kind), task.formSchema), Delete))
      then (t, Err(Forbidden))
      else (DeleteRows(t, NOTHING.(tasks := {id})), Ok(Done))
  }

  // ── Runs ────────────────────────────────────────────────────────────────

  /** One handled call. A call by a member comes with what the database answered when the access map was built. */
  datatype Call =
    | Administer(req: Request)
    | AddTask(projectId: nat, data: NewTask, viewer: Option<Viewer>, fetched: Fetch)
    | EditTask(id: nat, changes: TaskChanges, viewer: Option<Viewer>, fetched: Fetch)
    | DropTask(id: nat, viewer: Option<Viewer>, fetched: Fetch)
    | AddSubTask(subtask: SubTask)
    | EditSubTask(id: nat, assignedTo: Patch<nat>)
    | DropSubTask(id: nat)

  /** The access map of the viewer's membership, from an answer that lists the rows the database has; empty otherwise. */
  ghost function AccessFor(c: Catalog, t: Tables, projectId: nat, viewer: Option<Viewer>, f: Fetch): map<string, Flags> {
    var k := (projectId, ViewerId(viewer));
    if k in t.members && Answers(t, t.members[k], f) then
      AnswersKnown(t, t.members[k], f);
      AccessOf(c, t, f)
    else map[]
  }

  ghost function TaskNext(c: Catalog, lib: Library, t: Tables, call: Call): Tables {
    match call
    case Administer(req) => Handle(c, t, req).0
    case AddTask(p, data, viewer, f) => CreateTask(lib, t, p, data, viewer, AccessFor(c, t, p, viewer, f)).0
    case EditTask(id, data, viewer, f) =>
      if id !in t.tasks.rows then t
      else UpdateTask(lib, t, id, data, viewer, AccessFor(c, t, t.tasks.rows[id].projectId, viewer, f)).0
    case DropTask(id, viewer, f) =>
      if id !in t.tasks.rows then t
      else RemoveTask(lib, t, id, viewer, AccessFor(c, t, t.tasks.rows[id].projectId, viewer, f)).0
    case AddSubTask(subtask) => AfterWrite(t, InsertSubTask(subtask))
    case EditSubTask(id, assignedTo) =>
      if id !in t.subtasks.rows then t
      else AfterWrite(t, WriteSubTask(id, Patched(t.subtasks.rows[id].assignedTo, assignedTo)))
    case DropSubTask(id) => AfterWrite(t, DeleteSubTask(id))
  }

  ghost function TaskRun(c: Catalog, lib: Library, t: Tables, calls: seq<Call>): Tables {
    if calls == [] then t
    else TaskNext(c, lib, TaskRun(c, lib, t, calls[..|calls| - 1]), calls[|calls| - 1])
  }

  /** An administrator's request, seen from the tasks: it does nothing to them, or it is a delete. */
  lemma {:induction false} FinishOnTasks(c: Catalog, t: Tables, req: Request, l: Local)
    ensures var t' := Finish(c, t, req, l).0;
            if RootOf(t, req).Some? then t' == t || t' == DeleteRows(t, RootOf(t, req).value) else t'.tasks == t.tasks
    decreases Rank(l)
  {
    AdvanceRanks(c, t, req, l);
    StatementShape(c, t, req, l);
    var progress := Advance(c, t, req, l).1;
    hide Advance, DeleteRows;
    if progress.More? { FinishOnTasks(c, t, req, progress.local); }
  }

  /** What a delete does to the tasks it leaves. */
  lemma TasksAfterDelete(t: Tables, x: Dead)
    ensures DeleteRows(t, x).tasks.next == t.tasks.next
    ensures forall i | i in DeleteRows(t, x).tasks.rows ::
              i in t.tasks.rows && DeleteRows(t, x).tasks.rows[i] == NulledTask(t.tasks.rows[i], Cascade(t, x))
    ensures Cascade(t, x).users == x.users
  {
  }

  /** Trusted to say that the task is done and who works on it. */
  predicate Trusted(lib: Library, task: Task, viewer: Option<Viewer>) {
    Privileged(viewer) || IsCreator(lib, task, viewer)
  }

  predicate HasEditAccess(lib: Library, task: Task, access: map<string, Flags>) {
    CanPerform(access, ResolveResource(lib, Some(task.kind), task.formSchema), Edit)
  }

  /** What a call may do to a task that is there before and after it. */
  ghost predicate Accountable(c: Catalog, lib: Library, t: Tables, call: Call, id: nat, before: Task, after: Task) {
    && after.formSchema == before.formSchema && after.kind == before.kind && after.projectId == before.projectId
    && (after.status != before.status ==>
          call.EditTask? && call.id == id && (IsDone(after.status) ==> Trusted(lib, before, call.viewer)))
    && (after.assignedTo != before.assignedTo ==>
          || (call.EditTask? && call.id == id && Trusted(lib, before, call.viewer))
          || (before.assignedTo.Some? && call == Administer(RemoveUser(before.assignedTo.value))
              && after.assignedTo == None))
    && (call.EditTask? && call.id == id && after != before && !Privileged(call.viewer)
        && !HasEditAccess(lib, before, AccessFor(c, t, before.projectId, call.viewer, call.fetched)) ==>
          && IsAssignedWorker(before, call.viewer)
          && after == before.(status := after.status, submissionData := after.submissionData))
  }

  lemma AdministratorAccountable(c: Catalog, lib: Library, t: Tables, req: Request, id: nat)
    requires id in t.tasks.rows && id in Handle(c, t, req).0.tasks.rows
    ensures Accountable(c, lib, t, Administer(req), id, t.tasks.rows[id], Handle(c, t, req).0.tasks.rows[id])
  {
    FinishOnTasks(c, t, req, Start);
    if RootOf(t, req).Some? { TasksAfterDelete(t, RootOf(t, req).value); }
    OnlyUserRemovalRemovesUsers(t, req);
    hide Finish, DeleteRows, AccessFor, CanPerform, ResolveResource, IsDone, Cascade, RootOf;
  }

  lemma OnlyUserRemovalRemovesUsers(t: Tables, req: Request)
    ensures RootOf(t, req).Some? ==> forall u | u in RootOf(t, req).value.users :: req == RemoveUser(u)
  {
  }

  lemma EditAccountable(c: Catalog, lib: Library, t: Tables, call: Call, id: nat)
    requires id in t.tasks.rows && call.EditTask? && id in TaskNext(c, lib, t, call).tasks.rows
    ensures Accountable(c, lib, t, call, id, t.tasks.rows[id], TaskNext(c, lib, t, call).tasks.rows[id])
  {
    hide AccessFor, CanPerform, ResolveResource, Decode, CreatorId, IsDone;
  }

  lemma SubTaskCallsLeaveTasks(c: Catalog, lib: Library, t: Tables, call: Call)
    requires call.AddSubTask? || call.EditSubTask? || call.DropSubTask?
    ensures TaskNext(c, lib, t, call).tasks == t.tasks
  {
  }

  /** Everything one call can do to a task: its schema and type never change; its status changes only in an edit of that
      task, and to a done status only by a trusted viewer; its assignee changes only in a trusted viewer's edit, or to
      nobody because the assignee was deleted; and a viewer who is neither privileged nor has edit access changes only
      status and submission data, and only as the assigned worker. */
  lemma OneCall(c: Catalog, lib: Library, t: Tables, call: Call, id: nat)
    requires t.tasks.Valid()
    requires id in t.tasks.rows && id in TaskNext(c, lib, t, call).tasks.rows
    ensures Accountable(c, lib, t, call, id, t.tasks.rows[id], TaskNext(c, lib, t, call).tasks.rows[id])
  {
    match call
    case Administer(req) => AdministratorAccountable(c, lib, t, req, id);
    case AddTask(p, data, viewer, f) =>
      hide AccessFor;
    case EditTask(i, data, viewer, f) => EditAccountable(c, lib, t, call, id);
    case DropTask(i, viewer, f) =>
      TasksAfterDelete(t, NOTHING.(tasks := {i}));
      hide DeleteRows, AccessFor;
    case AddSubTask(_) => SubTaskCallsLeaveTasks(c, lib, t, call);
    case EditSubTask(_, _) => SubTaskCallsLeaveTasks(c, lib, t, call);
    case DropSubTask(_) => SubTaskCallsLeaveTasks(c, lib, t, call);
  }

  /** Task identifiers stay fresh: a task that is new has the next one. */
  ghost predicate FreshIds(t: Tables, t': Tables) {
    && t'.tasks.Valid() && t.tasks.next <= t'.tasks.next
    && (forall i | i in t'.tasks.rows && i !in t.tasks.rows :: i == t.tasks.next)
  }

  lemma DeleteFreshIds(t: Tables, x: Dead)
    requires t.tasks.Valid()
    ensures FreshIds(t, DeleteRows(t, x))
  {
    TasksAfterDelete(t, x);
    hide DeleteRows;
  }

  lemma AdministratorFreshIds(c: Catalog, t: Tables, req: Request)
    requires t.tasks.Valid()
    ensures FreshIds(t, Handle(c, t, req).0)
  {
    FinishOnTasks(c, t, req, Start);
    if RootOf(t, req).Some? { DeleteFreshIds(t, RootOf(t, req).value); }
    hide Finish, DeleteRows;
  }

  lemma TaskIds(c: Catalog, lib: Library, t: Tables, call: Call)
    requires t.tasks.Valid()
    ensures FreshIds(t, TaskNext(c, lib, t, call))
  {
    match call
    case Administer(req) =>
      AdministratorFreshIds(c, t, req);
    case AddTask(p, data, viewer, f) =>
      hide AccessFor, Handle, CanPerform, ResolveResource, StoredSchema;
    case EditTask(i, data, viewer, f) =>
      hide AccessFor, Handle, MayUpdate;
    case DropTask(i, viewer, f) =>
      DeleteFreshIds(t, NOTHING.(tasks := {i}));
      hide DeleteRows, AccessFor, FreshIds, Handle, CanPerform, ResolveResource;
    case AddSubTask(_) => SubTaskCallsLeaveTasks(c, lib, t, call);
    case EditSubTask(_, _) => SubTaskCallsLeaveTasks(c, lib, t, call);
    case DropSubTask(_) => SubTaskCallsLeaveTasks(c, lib, t, call);
  }

  // ── A task's whole life ─────────────────────────────────────────────────

  /** The call creates task `id`, for a viewer with an identity. */
  ghost predicate Creates(c: Catalog, lib: Library, t: Tables, call: Call, id: nat) {
    && call.AddTask? && ViewerId(call.viewer) != 0
    && CreateTask(lib, t, call.projectId, call.data, call.viewer,
        AccessFor(c, t, call.projectId, call.viewer, call.fetched)).1 == Ok(id)
  }

  /** The resource `createTask` checks. */
  function CheckedResource(lib: Library, data: NewTask): string {
    ResolveResource(lib, data.kind, Supplied(data.formSchema))
  }

  /** An edit of task `id` by a privileged viewer or by one with the number `creator`. */
  predicate TrustedEdit(call: Call, id: nat, creator: nat) {
    call.EditTask? && call.id == id && (Privileged(call.viewer) || ViewerId(call.viewer) == creator)
  }

  lemma CreationStamps(c: Catalog, lib: Library, t: Tables, call: Call, id: nat)
    requires Creates(c, lib, t, call, id)
    ensures var t' := TaskNext(c, lib, t, call);
            && id == t.tasks.next && id in t'.tasks.rows && id < t'.tasks.next
            && var task := t'.tasks.rows[id];
               && ResolveResource(lib, Some(task.kind), task.formSchema) == CheckedResource(lib, call.data)
               && CreatorId(lib, task.formSchema) == Some(ViewerId(call.viewer) as real)
               && !IsDone(task.status)
  {
    StampSurvives(lib, call.data.kind, call.data.formSchema, ViewerId(call.viewer));
    hide AccessFor, CanPerform, ResolveResource, StoredSchema, CreatorId;
    assert |ToLower("pending")| == 7 && |"done"| == 4;
  }

  /** What is true of a task `task` that `creation` created as `first`, after the calls `later`. */
  ghost predicate Life(lib: Library, creation: Call, first: Task, later: seq<Call>, id: nat, task: Task)
    requires creation.AddTask?
  {
    var creator := ViewerId(creation.viewer);
    && ResolveResource(lib, Some(task.kind), task.formSchema) == CheckedResource(lib, creation.data)
    && CreatorId(lib, task.formSchema) == Some(creator as real)
    && (IsDone(task.status) ==> SomeTrustedEdit(later, id, creator))
    && (task.assignedTo == first.assignedTo || SomeTrustedEdit(later, id, creator) || AssigneeDeleted(later, first, task))
  }

  ghost predicate SomeTrustedEdit(later: seq<Call>, id: nat, creator: nat) {
    exists i :: 0 <= i < |later| && TrustedEdit(later[i], id, creator)
  }

  /** The first assignee was deleted, and nobody is assigned any more. */
  ghost predicate AssigneeDeleted(later: seq<Call>, first: Task, task: Task) {
    && first.assignedTo.Some? && task.assignedTo.None?
    && exists i :: 0 <= i < |later| && later[i] == Administer(RemoveUser(first.assignedTo.value))
  }

  lemma TrustedEditsGrow(most: seq<Call>, last: Call, id: nat, creator: nat)
    ensures SomeTrustedEdit(most, id, creator) ==> SomeTrustedEdit(most + [last], id, creator)
    ensures TrustedEdit(last, id, creator) ==> SomeTrustedEdit(most + [last], id, creator)
  {
    var later := most + [last];
    assert later[|most|] == last;
    if SomeTrustedEdit(most, id, creator) {
      var i :| 0 <= i < |most| && TrustedEdit(most[i], id, creator);
      assert TrustedEdit(later[i], id, creator);
    }
  }

  /** Without a trusted edit, one more call leaves the assignee or deletes the first one. */
  lemma AssigneeStep(most: seq<Call>, last: Call, first: Task, before: Task, after: Task)
    requires before.assignedTo == first.assignedTo || AssigneeDeleted(most, first, before)
    requires after.assignedTo == before.assignedTo
             || (before.assignedTo.Some? && last == Administer(RemoveUser(before.assignedTo.value))
                 && after.assignedTo == None)
    ensures after.assignedTo == first.assignedTo || AssigneeDeleted(most + [last], first, after)
  {
    var later := most + [last];
    assert later[|most|] == last;
    if AssigneeDeleted(most, first, before) {
      var i :| 0 <= i < |most| && most[i] == Administer(RemoveUser(first.assignedTo.value));
      assert later[i] == most[i];
    }
  }

  lemma LifeStep(c: Catalog, lib: Library, t: Tables, creation: Call, first: Task, most: seq<Call>, last: Call, id: nat,
        before: Task, after: Task)
    requires creation.AddTask? && Life(lib, creation, first, most, id, before)
    requires Accountable(c, lib, t, last, id, before, after)
    ensures Life(lib, creation, first, most + [last], id, after)
  {
    hide AccessFor, CanPerform, ResolveResource, CreatorId, IsDone, HasEditAccess, SomeTrustedEdit, AssigneeDeleted;
    var creator := ViewerId(creation.viewer);
    TrustedEditsGrow(most, last, id, creator);
    if !SomeTrustedEdit(most, id, creator) && !TrustedEdit(last, id, creator) {
      AssigneeStep(most, last, first, before, after);
    }
  }

  lemma {:induction false} RunKeepsTaskIds(c: Catalog, lib: Library, t: Tables, calls: seq<Call>)
    requires t.tasks.Valid()
    ensures TaskRun(c, lib, t, calls).tasks.Valid()
  {
    if calls != [] {
      RunKeepsTaskIds(c, lib, t, calls[..|calls| - 1]);
      TaskIds(c, lib, TaskRun(c, lib, t, calls[..|calls| - 1]), calls[|calls| - 1]);
      hide TaskNext;
    }
  }

  /** From its creation to any later moment of any run, a task is guarded by the very resource that was checked when it was
      created and carries its creator's number; it is done only if a privileged viewer or one with that number edited
      it since; and without such an edit its assignee is still the first one, or nobody because that user was deleted. */
  lemma {:induction false} TaskLife(c: Catalog, lib: Library, t: Tables, creation: Call, id: nat, later: seq<Call>)
    requires t.tasks.Valid() && Creates(c, lib, t, creation, id)
    ensures var created := TaskNext(c, lib, t, creation);
            var now := TaskRun(c, lib, created, later);
            && id in created.tasks.rows && now.tasks.Valid() && id < now.tasks.next
            && (id in now.tasks.rows ==> Life(lib, creation, created.tasks.rows[id], later, id, now.tasks.rows[id]))
  {
    TaskIds(c, lib, t, creation);
    CreationStamps(c, lib, t, creation, id);
    var created := TaskNext(c, lib, t, creation);
    if later == [] {
      hide TaskNext;
      NewTaskLives(lib, creation, created.tasks.rows[id], id);
    } else {
      var most, last := later[..|later| - 1], later[|later| - 1];
      hide TaskNext, Life, Creates;
      TaskLife(c, lib, t, creation, id, most);
      assert later == most + [last];
      LifeGoesOn(c, lib, TaskRun(c, lib, created, most), creation, created.tasks.rows[id], most, last, id);
    }
  }

  lemma NewTaskLives(lib: Library, creation: Call, first: Task, id: nat)
    requires creation.AddTask?
    requires ResolveResource(lib, Some(first.kind), first.formSchema) == CheckedResource(lib, creation.data)
    requires CreatorId(lib, first.formSchema) == Some(ViewerId(creation.viewer) as real) && !IsDone(first.status)
    ensures Life(lib, creation, first, [], id, first)
  {
  }

  lemma LifeGoesOn(c: Catalog, lib: Library, before: Tables, creation: Call, first: Task, most: seq<Call>, last: Call,
        id: nat)
    requires before.tasks.Valid() && id < before.tasks.next && creation.AddTask?
    requires id in before.tasks.rows ==> Life(lib, creation, first, most, id, before.tasks.rows[id])
    ensures var now := TaskNext(c, lib, before, last);
            && now.tasks.Valid() && id < now.tasks.next
            && (id in now.tasks.rows ==> Life(lib, creation, first, most + [last], id, now.tasks.rows[id]))
  {
    hide TaskNext, Life, Accountable;
    TaskIds(c, lib, before, last);
    if id in before.tasks.rows && id in TaskNext(c, lib, before, last).tasks.rows {
      OneCall(c, lib, before, last, id);
      LifeStep(c, lib, before, creation, first, most, last, id, before.tasks.rows[id],
          TaskNext(c, lib, before, last).tasks.rows[id]);
    }
  }

  // ── Who is shown a task ─────────────────────────────────────────────────

  /** The tasks `applyViewerPolicyOnProject` keeps of a project's tasks. */
  function ShownInProject(lib: Library, t: Tables, access: map<string, Flags>, projectId: nat, viewerId: nat,
        m: Member): set<nat> {
    set i | i in t.tasks.rows && t.tasks.rows[i].projectId == projectId
            && (t.tasks.rows[i].departmentId.None?
                || NumberOf(t.tasks.rows[i].departmentId) == NumberOf(m.departmentId)
                || NumberOf(t.tasks.rows[i].assignedTo) == viewerId)
            && CanPerform(access, ResolveResource(lib, Some(t.tasks.rows[i].kind), t.tasks.rows[i].formSchema), View)
  }

  /** `Number(column)`: 0 for null. */
  function NumberOf(column: Option<nat>): nat {
    if column.Some? then column.value else 0
  }

  /** `getTasks`; a department argument of 0 is absent. */
  function GetTasks(lib: Library, t: Tables, access: map<string, Flags>, projectId: nat, departmentId: nat,
        viewer: Option<Viewer>): set<nat> {
    var k := (projectId, ViewerId(viewer));
    var requested := set i | i in t.tasks.rows && t.tasks.rows[i].projectId == projectId
                             && (departmentId != 0 ==> t.tasks.rows[i].departmentId == Some(departmentId));
    if Privileged(viewer) then requested
    else if k !in t.members then {}
    else
      var own := t.members[k].departmentId;
      if departmentId != 0 && own.Some? && departmentId != own.value then {}
      else
        set i | i in requested
                && (departmentId == 0 && own.Some? ==>
                      || t.tasks.rows[i].departmentId == own
                      || t.tasks.rows[i].departmentId.None?
                      || t.tasks.rows[i].assignedTo == Some(ViewerId(viewer)))
                && CanPerform(access, ResolveResource(lib, Some(t.tasks.rows[i].kind), t.tasks.rows[i].formSchema), View)
  }

  /** The tasks of a project only `getTasks` shows: readable ones of some department that are assigned to someone else. */
  function ElsewhereReadable(lib: Library, t: Tables, access: map<string, Flags>, projectId: nat, viewerId: nat): set<nat> {
    set i | i in t.tasks.rows && t.tasks.rows[i].projectId == projectId
            && t.tasks.rows[i].departmentId.Some? && t.tasks.rows[i].assignedTo != Some(viewerId)
            && CanPerform(access, ResolveResource(lib, Some(t.tasks.rows[i].kind), t.tasks.rows[i].formSchema), View)
  }

  /** A member with a department is shown the same tasks inside the project as by `getTasks`; a member without one is shown
      those of `getTasks` that have no department or are the member's own. */
  lemma SameTasksShown(c: Catalog, lib: Library, t: Tables, access: map<string, Flags>, projectId: nat,
        viewer: Option<Viewer>)
    requires Inv(c, t) && !Privileged(viewer) && (projectId, ViewerId(viewer)) in t.members
    ensures var m := t.members[(projectId, ViewerId(viewer))];
            var inProject := ShownInProject(lib, t, access, projectId, ViewerId(viewer), m);
            var listed := GetTasks(lib, t, access, projectId, 0, viewer);
            && (m.departmentId.Some? ==> inProject == listed)
            && (m.departmentId.None? ==> inProject == listed - ElsewhereReadable(lib, t, access, projectId,
                ViewerId(viewer)))
  {
    hide CanPerform, ResolveResource;
  }
}
