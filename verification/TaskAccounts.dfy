/** Who passes as a task's creator: the stamp is a number, and administrators and users are numbered apart. */
module TaskAccounts {
  import opened Wrappers
  import opened Text
  import opened Json
  import opened Catalog
  import opened Tables
  import opened Statements
  import opened Requests
  import opened AccessMap
  import opened MemberAccess
  import opened PolicyTables
  import opened Scripts
  import opened TaskSchema
  import opened Tasks

  predicate SameAccount(v: Viewer, w: Viewer) {
    v.userId == w.userId && (v.role == "admin" <==> w.role == "admin")
  }

  /** At any later moment of any run, a viewer who is no administrator and is not the account that created a task is trusted
      with it exactly when an administrator created it and the viewer has that administrator's number. */
  lemma StrangerTrustedIff(c: Catalog, lib: Library, t: Tables, creation: Call, id: nat, later: seq<Call>, v: Viewer)
    requires t.tasks.Valid() && Creates(c, lib, t, creation, id) && creation.viewer.Some?
    requires v.role != "admin" && !SameAccount(v, creation.viewer.value)
    ensures var now := TaskRun(c, lib, TaskNext(c, lib, t, creation), later);
            id in now.tasks.rows ==>
              (Trusted(lib, now.tasks.rows[id], Some(v)) <==>
                 creation.viewer.value.role == "admin" && v.userId == creation.viewer.value.userId)
  {
    TaskLife(c, lib, t, creation, id, later);
    hide TaskNext, TaskRun, Creates, CreatorId, ResolveResource, SomeTrustedEdit, IsDone;
  }

  // ── A run in which a stranger passes ────────────────────────────────────

  const NEW_TASK := NewTask("t", None, None, Some(1), None, None)

  const SET_DONE := TaskChanges(Keep, Keep, Put("done"), Keep, Keep)

  const NOBODY := Fetch([], [])

  const BY_ADMIN := AddTask(1, NEW_TASK, Some(Viewer(1, "admin")), NOBODY)

  const BY_USER := EditTask(1, SET_DONE, Some(Viewer(1, "user")), NOBODY)

  /** User 1 declares done what administrator 1 created. */
  ghost predicate StrangerFinishes(c: Catalog, lib: Library, t: Tables) {
    var created := TaskNext(c, lib, t, BY_ADMIN);
    var edited := TaskNext(c, lib, created, BY_USER);
    && Creates(c, lib, t, BY_ADMIN, 1)
    && 1 in created.tasks.rows && !IsDone(created.tasks.rows[1].status)
    && 1 in edited.tasks.rows && IsDone(edited.tasks.rows[1].status)
  }

  /** Project 1, and user 1 in it. */
  function OneMember(): Tables {
    EMPTY.(
      projects := Table(map[1 := Project("p", 1)], 2), users := Table(map[1 := User("u")], 2),
      members := map[(1, 1) := Member(None, None, None)])
  }

  lemma OneMemberReached(c: Catalog) returns (reqs: seq<Request>)
    ensures HandleAll(c, EMPTY, reqs) == OneMember()
  {
    var t1 := InsertProject(EMPTY, "p", 1);
    HandleAllAppend(c, EMPTY, [], CreateProject(1, "p"));
    ProjectCreated(c, EMPTY, 1, "p");
    var r1 := [] + [CreateProject(1, "p")];
    HandleAllAppend(c, EMPTY, r1, CreateUser("u"));
    UserCreated(c, t1, "u");
    var t2, r2 := InsertUser(t1, "u"), r1 + [CreateUser("u")];
    HandleAllAppend(c, EMPTY, r2, AssignUser(1, 1));
    UserAssigned(c, t2, 1, 1);
    reqs := r2 + [AssignUser(1, 1)];
    assert HandleAll(c, EMPTY, []) == EMPTY;
    hide HandleAll, Handle;
    assert t2.members[(1, 1) := Member(None, None, None)] == OneMember().members;
  }

  lemma Statuses()
    ensures !IsDone("pending") && IsDone("done")
  {
    assert |ToLower("pending")| == 7 && |"done"| == 4;
    assert ToLower("done") == "done";
  }

  lemma AdminCreates(c: Catalog, lib: Library)
    ensures Creates(c, lib, OneMember(), BY_ADMIN, 1)
  {
    hide AccessFor, StoredSchema;
  }

  lemma UserFinishes(c: Catalog, lib: Library, t: Tables)
    requires (1, 1) in t.members && 1 in t.users.rows && 1 in t.tasks.rows && t.tasks.rows[1].projectId == 1
    requires t.tasks.rows[1].assignedTo == Some(1) && CreatorId(lib, t.tasks.rows[1].formSchema) == Some(1 as real)
    ensures var t' := TaskNext(c, lib, t, BY_USER); 1 in t'.tasks.rows && t'.tasks.rows[1].status == "done"
  {
    hide AccessFor, CreatorId, ResolveResource, CanPerform, IsDone, Decode;
    assert MayUpdate(lib, t, t.tasks.rows[1], SET_DONE, Some(Viewer(1, "user")),
        AccessFor(c, t, 1, Some(Viewer(1, "user")), NOBODY));
  }

  /** Ordinary requests and calls lead there. */
  lemma StrangerFinishesSomewhere(c: Catalog, lib: Library)
    ensures exists reqs :: StrangerFinishes(c, lib, HandleAll(c, EMPTY, reqs))
  {
    var reqs := OneMemberReached(c);
    var t := OneMember();
    Statuses();
    AdminCreates(c, lib);
    CreationStamps(c, lib, t, BY_ADMIN, 1);
    Assigned(c, lib);
    hide Creates, TaskNext, HandleAll, IsDone, CreatorId, OneMember;
    UserFinishes(c, lib, TaskNext(c, lib, t, BY_ADMIN));
    assert StrangerFinishes(c, lib, t);
  }

  lemma Assigned(c: Catalog, lib: Library)
    ensures var t' := TaskNext(c, lib, OneMember(), BY_ADMIN);
            && t'.members == OneMember().members && (1, 1) in t'.members && t'.users == OneMember().users
                && 1 in t'.users.rows
            && 1 in t'.tasks.rows && t'.tasks.rows[1].projectId == 1 && t'.tasks.rows[1].assignedTo == Some(1)
  {
    hide AccessFor, StoredSchema;
  }
}
