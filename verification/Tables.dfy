/** The relational store: rows, identifiers that are never reused, foreign keys, and what a delete cascades to. */
module Tables {
  import opened Wrappers
  import opened Text
  import opened Catalog
  import opened Json

  /** A table keyed by an auto-incremented identifier. */
  datatype Table<R> = Table(rows: map<nat, R>, next: nat) {
    ghost predicate Valid() {
      0 < next && forall id | id in rows :: 0 < id < next
    }

    function Insert(row: R): Table<R> {
      Table(rows[next := row], next + 1)
    }

    function Update(id: nat, row: R): Table<R> {
      this.(rows := rows[id := row])
    }

    function Without(dead: set<nat>): Table<R> {
      this.(rows := rows - dead)
    }
  }

  datatype Project = Project(name: string, createdBy: nat)  // an administrator, in a table outside this model
  datatype User = User(email: string)
  datatype Department = Department(projectId: nat, name: string)
  datatype DepartmentRole = DepartmentRole(departmentId: nat, name: string)
  datatype Policy = Policy(departmentRoleId: nat, resource: string, flags: Flags)
  datatype ProjectRole = ProjectRole(projectId: nat, name: string)
  datatype Permission = Permission(projectRoleId: nat, departmentId: Option<nat>, resource: string, flags: Flags)
  datatype Member = Member(projectRoleId: Option<nat>, departmentId: Option<nat>, departmentRoleId: Option<nat>)
  datatype Task = Task(
    projectId: nat, departmentId: Option<nat>, title: string, description: Option<string>, status: string,
    kind: string, formSchema: Option<Json>, submissionData: Option<Json>, assignedTo: Option<nat>)
  datatype SubTask = SubTask(taskId: nat, assignedTo: Option<nat>)

  datatype Tables = Tables(
    projects: Table<Project>, users: Table<User>,
    departments: Table<Department>, departmentRoles: Table<DepartmentRole>, policies: Table<Policy>,
    projectRoles: Table<ProjectRole>, permissions: Table<Permission>,
    members: map<(nat, nat), Member>,  // keyed by (projectId, userId)
    tasks: Table<Task>, subtasks: Table<SubTask>)

  const EMPTY := Tables(
    Table(map[], 1), Table(map[], 1), Table(map[], 1), Table(map[], 1), Table(map[], 1),
    Table(map[], 1), Table(map[], 1), map[], Table(map[], 1), Table(map[], 1))

  predicate Refers<R>(ref: Option<nat>, table: Table<R>) {
    ref.Some? ==> ref.value in table.rows
  }

  // ── What every state keeps ──────────────────────────────────────────────

  ghost predicate ValidIds(t: Tables) {
    && t.projects.Valid() && t.users.Valid() && t.departments.Valid() && t.departmentRoles.Valid() && t.policies.Valid()
    && t.projectRoles.Valid() && t.permissions.Valid() && t.tasks.Valid() && t.subtasks.Valid()
  }

  /** No foreign key dangles. */
  ghost predicate ForeignKeys(t: Tables) {
    AccessKeys(t) && MemberKeys(t) && TaskKeys(t)
  }

  ghost predicate AccessKeys(t: Tables) {
    DepartmentKeys(t) && DepartmentRoleKeys(t) && PolicyKeys(t) && ProjectRoleKeys(t) && PermissionKeys(t)
  }

  ghost predicate DepartmentKeys(t: Tables) {
    forall d | d in t.departments.rows :: t.departments.rows[d].projectId in t.projects.rows
  }

  ghost predicate DepartmentRoleKeys(t: Tables) {
    forall r | r in t.departmentRoles.rows :: t.departmentRoles.rows[r].departmentId in t.departments.rows
  }

  ghost predicate PolicyKeys(t: Tables) {
    forall p | p in t.policies.rows :: t.policies.rows[p].departmentRoleId in t.departmentRoles.rows
  }

  ghost predicate ProjectRoleKeys(t: Tables) {
    forall r | r in t.projectRoles.rows :: t.projectRoles.rows[r].projectId in t.projects.rows
  }

  ghost predicate PermissionKeys(t: Tables) {
    forall p | p in t.permissions.rows ::
      && t.permissions.rows[p].projectRoleId in t.projectRoles.rows
      && Refers(t.permissions.rows[p].departmentId, t.departments)
  }

  ghost predicate MemberKeys(t: Tables) {
    forall k | k in t.members :: k.0 in t.projects.rows && k.1 in t.users.rows && MemberRefers(t, t.members[k])
  }

  ghost predicate TaskKeys(t: Tables) {
    TaskRowKeys(t) && SubTaskKeys(t)
  }

  ghost predicate TaskRowKeys(t: Tables) {
    forall i | i in t.tasks.rows :: TaskRefers(t, t.tasks.rows[i])
  }

  ghost predicate SubTaskKeys(t: Tables) {
    forall i | i in t.subtasks.rows :: SubTaskRefers(t, t.subtasks.rows[i])
  }

  predicate TaskRefers(t: Tables, task: Task) {
    task.projectId in t.projects.rows && Refers(task.departmentId, t.departments) && Refers(task.assignedTo, t.users)
  }

  predicate SubTaskRefers(t: Tables, subtask: SubTask) {
    subtask.taskId in t.tasks.rows && Refers(subtask.assignedTo, t.users)
  }

  predicate MemberRefers(t: Tables, m: Member) {
    && Refers(m.projectRoleId, t.projectRoles)
    && Refers(m.departmentId, t.departments)
    && Refers(m.departmentRoleId, t.departmentRoles)
  }

  /** A member's department is a department of the member's project, and a member's department role belongs to exactly
      that department. */
  ghost predicate PlacedInProject(t: Tables, projectId: nat, m: Member) {
    && (m.departmentId.Some? ==>
          m.departmentId.value in t.departments.rows && t.departments.rows[m.departmentId.value].projectId == projectId)
    && (m.departmentRoleId.Some? ==>
          && m.departmentRoleId.value in t.departmentRoles.rows
          && m.departmentId == Some(t.departmentRoles.rows[m.departmentRoleId.value].departmentId))
  }

  ghost predicate Placement(t: Tables) {
    forall k | k in t.members :: PlacedInProject(t, k.0, t.members[k])
  }

  /** The unique indexes the database enforces. */
  ghost predicate UniqueIndexes(t: Tables) {
    && UniquePolicies(t.policies.rows) && UniquePermissions(t.permissions.rows)
    && UniqueDepartmentRoles(t.departmentRoles.rows) && UniqueProjectRoles(t.projectRoles.rows)
  }

  ghost predicate UniquePolicies(rows: map<nat, Policy>) {
    forall p, q | p in rows && q in rows && PolicyKey(rows[p]) == PolicyKey(rows[q]) :: p == q
  }

  /** The database treats two null departments as different. */
  ghost predicate UniquePermissions(rows: map<nat, Permission>) {
    forall p, q | p in rows && q in rows && rows[p].departmentId.Some?
        && PermissionKey(rows[p]) == PermissionKey(rows[q]) :: p == q
  }

  /** A department has one role of each name. */
  ghost predicate UniqueDepartmentRoles(rows: map<nat, DepartmentRole>) {
    forall r, s | r in rows && s in rows && rows[r] == rows[s] :: r == s
  }

  /** A project has one role of each name. */
  ghost predicate UniqueProjectRoles(rows: map<nat, ProjectRole>) {
    forall r, s | r in rows && s in rows && rows[r] == rows[s] :: r == s
  }

  function PolicyKey(p: Policy): (nat, string) { (p.departmentRoleId, p.resource) }

  function PermissionKey(p: Permission): (nat, Option<nat>, string) { (p.projectRoleId, p.departmentId, p.resource) }

  /** A resource a policy write may store: allowed, and in the form the write would give it again. */
  ghost predicate Storable(c: Catalog, resource: string) {
    c.Allowed(resource) && NormalizePolicyResource(c, resource) == resource && Normalize(resource) == resource
  }

  ghost predicate SoundGrants(c: Catalog, t: Tables) {
    SoundPolicies(c, t.policies.rows) && SoundPermissions(c, t.permissions.rows)
  }

  ghost predicate SoundPolicies(c: Catalog, rows: map<nat, Policy>) {
    forall p | p in rows :: Storable(c, rows[p].resource) && WellFlagged(c, rows[p].resource, rows[p].flags)
  }

  ghost predicate SoundPermissions(c: Catalog, rows: map<nat, Permission>) {
    forall p | p in rows :: Storable(c, rows[p].resource) && WellFlagged(c, rows[p].resource, rows[p].flags)
  }

  ghost predicate Inv(c: Catalog, t: Tables) {
    ValidIds(t) && ForeignKeys(t) && Placement(t) && UniqueIndexes(t) && SoundGrants(c, t)
  }

  // ── Deletes ─────────────────────────────────────────────────────────────

  /** Rows to remove, table by table. */
  datatype Dead = Dead(
    projects: set<nat>, users: set<nat>, departments: set<nat>, departmentRoles: set<nat>, policies: set<nat>,
    projectRoles: set<nat>, permissions: set<nat>, members: set<(nat, nat)>, tasks: set<nat>, subtasks: set<nat>)

  const NOTHING := Dead({}, {}, {}, {}, {}, {}, {}, {}, {}, {})

  /** Every row with an `onDelete: Cascade` reference to a removed row is removed. */
  ghost predicate CascadeClosed(t: Tables, x: Dead) {
    && (forall d | d in t.departments.rows && t.departments.rows[d].projectId in x.projects :: d in x.departments)
    && (forall r | r in t.departmentRoles.rows && t.departmentRoles.rows[r].departmentId in x.departments ::
        r in x.departmentRoles)
    && (forall p | p in t.policies.rows && t.policies.rows[p].departmentRoleId in x.departmentRoles :: p in x.policies)
    && (forall r | r in t.projectRoles.rows && t.projectRoles.rows[r].projectId in x.projects :: r in x.projectRoles)
    && (forall p | p in t.permissions.rows && PermissionHangsOn(t.permissions.rows[p], x.projectRoles, x.departments) ::
        p in x.permissions)
    && (forall k | k in t.members && (k.0 in x.projects || k.1 in x.users) :: k in x.members)
    && (forall i | i in t.tasks.rows && t.tasks.rows[i].projectId in x.projects :: i in x.tasks)
    && (forall i | i in t.subtasks.rows && t.subtasks.rows[i].taskId in x.tasks :: i in x.subtasks)
  }

  predicate PermissionHangsOn(p: Permission, projectRoles: set<nat>, departments: set<nat>) {
    p.projectRoleId in projectRoles || (p.departmentId.Some? && p.departmentId.value in departments)
  }

  /** The rows a delete of `x` removes in all. */
  function Cascade(t: Tables, x: Dead): Dead {
    var departments := x.departments + (set d | d in t.departments.rows && t.departments.rows[d].projectId in x.projects);
    var departmentRoles := x.departmentRoles + (set r | r in t.departmentRoles.rows
        && t.departmentRoles.rows[r].departmentId in departments);
    var projectRoles := x.projectRoles + (set r | r in t.projectRoles.rows
        && t.projectRoles.rows[r].projectId in x.projects);
    var tasks := x.tasks + (set i | i in t.tasks.rows && t.tasks.rows[i].projectId in x.projects);
    Dead(
      x.projects, x.users, departments, departmentRoles,
      x.policies + (set p | p in t.policies.rows && t.policies.rows[p].departmentRoleId in departmentRoles),
      projectRoles,
      x.permissions + (set p | p in t.permissions.rows
          && PermissionHangsOn(t.permissions.rows[p], projectRoles, departments)),
      x.members + (set k | k in t.members && (k.0 in x.projects || k.1 in x.users)),
      tasks,
      x.subtasks + (set i | i in t.subtasks.rows && t.subtasks.rows[i].taskId in tasks))
  }

  predicate Within(x: Dead, y: Dead) {
    && x.projects <= y.projects && x.users <= y.users && x.departments <= y.departments
        && x.departmentRoles <= y.departmentRoles
    && x.policies <= y.policies && x.projectRoles <= y.projectRoles && x.permissions <= y.permissions
    && x.members <= y.members && x.tasks <= y.tasks && x.subtasks <= y.subtasks
  }

  /** The cascade removes what the schema demands and not one row more. */
  lemma CascadeIsLeast(t: Tables, x: Dead)
    ensures Within(x, Cascade(t, x)) && CascadeClosed(t, Cascade(t, x))
    ensures forall y | Within(x, y) && CascadeClosed(t, y) :: Within(Cascade(t, x), y)
  {
    CascadeIsClosed(t, x);
    forall y | Within(x, y) && CascadeClosed(t, y) ensures Within(Cascade(t, x), y) { CascadeIsWithin(t, x, y); }
    hide CascadeClosed, Cascade, Within;
  }

  lemma CascadeIsClosed(t: Tables, x: Dead)
    ensures Within(x, Cascade(t, x)) && CascadeClosed(t, Cascade(t, x))
  {
  }

  lemma CascadeIsWithin(t: Tables, x: Dead, y: Dead)
    requires Within(x, y) && CascadeClosed(t, y)
    ensures Within(Cascade(t, x), y)
  {
  }

  /** `onDelete: SetNull`. */
  function Nulled(ref: Option<nat>, dead: set<nat>): Option<nat> {
    if ref.Some? && ref.value in dead then None else ref
  }

  function NulledMember(m: Member, x: Dead): Member {
    Member(Nulled(m.projectRoleId, x.projectRoles), Nulled(m.departmentId, x.departments),
        Nulled(m.departmentRoleId, x.departmentRoles))
  }

  function NulledTask(i: Task, x: Dead): Task {
    i.(departmentId := Nulled(i.departmentId, x.departments), assignedTo := Nulled(i.assignedTo, x.users))
  }

  /** Remove the rows of `x` and clear the nullable references to them. */
  function Prune(t: Tables, x: Dead): Tables {
    Tables(
      t.projects.Without(x.projects), t.users.Without(x.users),
      t.departments.Without(x.departments), t.departmentRoles.Without(x.departmentRoles), t.policies.Without(x.policies),
      t.projectRoles.Without(x.projectRoles), t.permissions.Without(x.permissions),
      map k | k in t.members && k !in x.members :: NulledMember(t.members[k], x),
      Table(map i | i in t.tasks.rows && i !in x.tasks :: NulledTask(t.tasks.rows[i], x), t.tasks.next),
      Table(map i | i in t.subtasks.rows && i !in x.subtasks ::
              t.subtasks.rows[i].(assignedTo := Nulled(t.subtasks.rows[i].assignedTo, x.users)), t.subtasks.next))
  }

  /** One delete statement, cascades included. */
  function DeleteRows(t: Tables, x: Dead): Tables {
    Prune(t, Cascade(t, x))
  }

  lemma PruneKeepsForeignKeys(t: Tables, x: Dead)
    requires ForeignKeys(t) && CascadeClosed(t, x)
    ensures ForeignKeys(Prune(t, x))
  {
    PruneKeepsAccessKeys(t, x);
    assert MemberKeys(Prune(t, x));
    PruneKeepsTaskKeys(t, x);
  }

  lemma PruneKeepsAccessKeys(t: Tables, x: Dead)
    requires AccessKeys(t) && CascadeClosed(t, x)
    ensures AccessKeys(Prune(t, x))
  {
  }

  lemma PruneKeepsTaskKeys(t: Tables, x: Dead)
    requires TaskKeys(t) && CascadeClosed(t, x)
    ensures TaskKeys(Prune(t, x))
  {
  }

  lemma PruneKeepsPlacement(t: Tables, x: Dead)
    requires ForeignKeys(t) && Placement(t) && CascadeClosed(t, x)
    ensures Placement(Prune(t, x))
  {
    var t' := Prune(t, x);
    forall k | k in t'.members ensures PlacedInProject(t', k.0, t'.members[k]) {
      assert PlacedInProject(t, k.0, t.members[k]);
    }
  }

  /** Every delete, with everything it cascades to, keeps the store sound. */
  lemma DeleteRowsKeepsInv(c: Catalog, t: Tables, x: Dead)
    requires Inv(c, t)
    ensures Inv(c, DeleteRows(t, x))
  {
    CascadeIsLeast(t, x);
    PruneKeepsForeignKeys(t, Cascade(t, x));
    PruneKeepsPlacement(t, Cascade(t, x));
  }
}
