/** Project roles of members: nothing checks that a member's role belongs to the member's project. */
module ProjectRoles {
  import opened Wrappers
  import opened Text
  import opened Catalog
  import opened Tables
  import opened Statements
  import opened Requests
  import opened PolicyTables
  import opened Scripts

  /** Each member's project role is a role of the member's own project. */
  ghost predicate OwnRoles(t: Tables) {
    forall k | k in t.members :: OwnRole(t, k, t.members[k].projectRoleId)
  }

  predicate OwnRole(t: Tables, k: (nat, nat), role: Option<nat>) {
    role.Some? ==> role.value in t.projectRoles.rows && t.projectRoles.rows[role.value].projectId == k.0
  }

  /** The next statement is the write of a `setUserRole` that succeeds and names another project's role. */
  ghost predicate SetsForeignRole(s: System, e: Event) {
    && e.Turn? && e.pid in s.running && s.running[e.pid].req.SetUserRole?
    && var req := s.running[e.pid].req;
       && (req.projectId, req.userId) in s.tables.members
       && MemberRefers(s.tables, s.tables.members[(req.projectId, req.userId)].(projectRoleId := Some(req.roleId)))
       && s.tables.projectRoles.rows[req.roleId].projectId != req.projectId
  }

  /** Roles stay in their project and memberships keep their role, or lose it. */
  ghost predicate RolesKept(t: Tables, t': Tables) {
    && (forall r | r in t.projectRoles.rows && r in t'.projectRoles.rows ::
          t'.projectRoles.rows[r].projectId == t.projectRoles.rows[r].projectId)
    && (forall k | k in t'.members && t'.members[k].projectRoleId.Some? ::
          && k in t.members && t'.members[k].projectRoleId == t.members[k].projectRoleId
          && t'.members[k].projectRoleId.value in t'.projectRoles.rows)
  }

  lemma KeptRolesStayOwn(t: Tables, t': Tables)
    requires OwnRoles(t) && RolesKept(t, t')
    ensures OwnRoles(t')
  {
    forall k | k in t'.members ensures OwnRole(t', k, t'.members[k].projectRoleId) {
      if t'.members[k].projectRoleId.Some? { assert OwnRole(t, k, t.members[k].projectRoleId); }
    }
  }

  lemma MemberRolesExist(c: Catalog, t: Tables)
    requires Inv(c, t)
    ensures MemberKeys(t) && t.projectRoles.Valid()
  {
  }

  lemma DeleteKeepsRoles(t: Tables, x: Dead)
    requires MemberKeys(t)
    ensures RolesKept(t, DeleteRows(t, x))
  {
    hide Cascade;
  }

  lemma SameRolesKept(t: Tables, t': Tables)
    requires MemberKeys(t) && t'.projectRoles == t.projectRoles && t'.members == t.members
    ensures RolesKept(t, t')
  {
  }

  /** A membership that keeps its role, loses it, or starts without one. */
  lemma PutMemberKeepsRoles(t: Tables, k: (nat, nat), m: Member)
    requires MemberKeys(t) && (m.projectRoleId.Some? ==> k in t.members && m.projectRoleId == t.members[k].projectRoleId)
    ensures RolesKept(t, t.(members := t.members[k := m]))
  {
  }

  lemma MembershipKeepsRoles(c: Catalog, t: Tables, req: Request, l: Local)
    requires MemberKeys(t) && IsMembership(req) && !req.SetUserRole?
    ensures RolesKept(t, AdvanceMembership(t, req, l).0)
  {
    hide DeleteRows, RolesKept, MemberKeys, MemberRefers;
    var k := (req.projectId, req.userId);
    SameRolesKept(t, t);
    match req
    case AssignUser(_, _) => PutMemberKeepsRoles(t, k, Member(None, None, None));
    case UnassignUser(_, _) => DeleteKeepsRoles(t, NOTHING.(members := {k}));
    case UnsetUserRole(_, _) => if k in t.members { PutMemberKeepsRoles(t, k, Changed(t.members[k], ProjectRoleTo(None))); }
    case AssignUserToDepartment(_, _, d) =>
      if k in t.members { PutMemberKeepsRoles(t, k, Changed(t.members[k], DepartmentTo(Some(d), None))); }
    case RemoveUserFromDepartment(_, _) =>
      if k in t.members { PutMemberKeepsRoles(t, k, Changed(t.members[k], DepartmentTo(None, None))); }
    case SetUserDepartmentRole(_, _, r) =>
      if k in t.members && l.RoleRead? { PutMemberKeepsRoles(t, k,
          Changed(t.members[k], DepartmentTo(Some(l.departmentId), Some(r)))); }
    case UnsetUserDepartmentRole(_, _) =>
      if k in t.members { PutMemberKeepsRoles(t, k, Changed(t.members[k], DepartmentRoleTo(None))); }
  }

  lemma DepartmentKeepsRoles(t: Tables, req: Request, l: Local)
    requires MemberKeys(t) && IsDepartment(req)
    ensures RolesKept(t, AdvanceDepartments(t, req, l).0)
  {
    hide DeleteRows, Trim, DepartmentRoleNamed, RolesKept, MemberKeys;
    var t' := AdvanceDepartments(t, req, l).0;
    if t'.projectRoles == t.projectRoles && t'.members == t.members { SameRolesKept(t, t'); }
    if req.RemoveDepartment? { DeleteKeepsRoles(t, NOTHING.(departments := {req.departmentId})); }
    if req.RemoveDepartmentRole? { DeleteKeepsRoles(t, NOTHING.(departmentRoles := {req.departmentRoleId})); }
  }

  lemma GrantKeepsRoles(c: Catalog, t: Tables, req: Request, l: Local)
    requires MemberKeys(t) && IsGrant(req)
    ensures RolesKept(t, AdvanceGrants(c, t, req, l).0)
  {
    hide DeleteRows, NormalizePolicyResource, BuildPolicyFlags, FindPolicy, FindPermission, RolesKept, MemberKeys;
    var t' := AdvanceGrants(c, t, req, l).0;
    if t'.projectRoles == t.projectRoles && t'.members == t.members { SameRolesKept(t, t'); }
    if req.RemoveDepartmentRolePolicy? { DeleteKeepsRoles(t, NOTHING.(policies := {req.policyId})); }
    if req.RemovePermission? { DeleteKeepsRoles(t, NOTHING.(permissions := {req.permissionId})); }
  }

  lemma EntityKeepsRoles(t: Tables, req: Request, l: Local)
    requires MemberKeys(t) && t.projectRoles.Valid() && !IsMembership(req) && !IsGrant(req) && !IsDepartment(req)
    ensures RolesKept(t, AdvanceEntities(t, req, l).0)
  {
    hide DeleteRows, Trim, ProjectRoleNamed, ProjectsOf;
    match req
    case RemoveProject(p) => DeleteKeepsRoles(t, NOTHING.(projects := {p}));
    case RemoveAdmin(adminId) => DeleteKeepsRoles(t, NOTHING.(projects := ProjectsOf(t, adminId)));
    case RemoveUser(u) => DeleteKeepsRoles(t, NOTHING.(users := {u}));
    case RemoveRole(r) => DeleteKeepsRoles(t, NOTHING.(projectRoles := {r}));
    case _ =>
  }

  lemma OthersKeepRoles(c: Catalog, t: Tables, req: Request, l: Local)
    requires Inv(c, t) && !req.SetUserRole?
    ensures RolesKept(t, Advance(c, t, req, l).0)
  {
    hide Inv, RolesKept, MemberKeys, AdvanceMembership, AdvanceDepartments, AdvanceGrants, AdvanceEntities;
    MemberRolesExist(c, t);
    if IsMembership(req) { MembershipKeepsRoles(c, t, req, l); }
    else if IsDepartment(req) { DepartmentKeepsRoles(t, req, l); }
    else if IsGrant(req) { GrantKeepsRoles(c, t, req, l); }
    else { EntityKeepsRoles(t, req, l); }
  }

  /** The one write that can break it, and exactly when it does. */
  lemma SetUserRoleIff(c: Catalog, t: Tables, req: Request, l: Local)
    requires Inv(c, t) && OwnRoles(t) && req.SetUserRole?
    ensures var k := (req.projectId, req.userId);
            OwnRoles(Advance(c, t, req, l).0) <==>
            !(&& k in t.members && MemberRefers(t, t.members[k].(projectRoleId := Some(req.roleId)))
              && t.projectRoles.rows[req.roleId].projectId != req.projectId)
  {
    hide Inv;
    var k := (req.projectId, req.userId);
    var t' := Advance(c, t, req, l).0;
    if k in t.members && MemberRefers(t, t.members[k].(projectRoleId := Some(req.roleId))) {
      assert t'.members[k].projectRoleId == Some(req.roleId);
      assert OwnRole(t', k, Some(req.roleId)) <==> t.projectRoles.rows[req.roleId].projectId == req.projectId;
      forall j | j in t'.members && j != k ensures OwnRole(t', j, t'.members[j].projectRoleId) {
        assert OwnRole(t, j, t.members[j].projectRoleId);
      }
    }
  }

  /** One event keeps every member's project role a role of the member's project, unless it is the successful write of
      a `setUserRole` that names another project's role; and then it does not. */
  lemma StepKeepsOwnRolesIff(c: Catalog, s: System, e: Event)
    requires Inv(c, s.tables) && OwnRoles(s.tables)
    ensures OwnRoles(Next(c, s, e).tables) <==> !SetsForeignRole(s, e)
  {
    match e
    case Arrive(_, _) =>
    case Write(write) =>
      TaskWriteLeavesAccess(s.tables, write);
      hide AfterWrite;
      MemberRolesExist(c, s.tables);
      KeptRolesStayOwn(s.tables, Next(c, s, e).tables);
    case Turn(pid) =>
      if pid in s.running {
        var process := s.running[pid];
        hide Advance, OwnRoles, Inv;
        if process.req.SetUserRole? {
          SetUserRoleIff(c, s.tables, process.req, process.local);
        } else {
          OthersKeepRoles(c, s.tables, process.req, process.local);
          KeptRolesStayOwn(s.tables, Next(c, s, e).tables);
        }
      }
  }

  lemma StepAt(c: Catalog, events: seq<Event>, n: nat)
    requires c.Valid() && n < |events| && OwnRoles(At(c, events, n).tables)
    ensures OwnRoles(At(c, events, n + 1).tables) <==> !SetsForeignRole(At(c, events, n), events[n])
  {
    PrefixSteps(c, events, n);
    hide OwnRoles, Inv, Next, SetsForeignRole;
    StepKeepsOwnRolesIff(c, At(c, events, n), events[n]);
  }

  lemma {:induction false} OwnUntil(c: Catalog, events: seq<Event>, n: nat)
    requires c.Valid() && n <= |events|
    requires forall i | 0 <= i < |events| :: !SetsForeignRole(At(c, events, i), events[i])
    ensures OwnRoles(At(c, events, n).tables)
  {
    if n > 0 {
      OwnUntil(c, events, n - 1);
      StepAt(c, events, n - 1);
    }
  }

  /** Along a run the property holds all the time exactly when no event of the run sets a foreign role. */
  lemma RunKeepsOwnRolesIff(c: Catalog, events: seq<Event>)
    requires c.Valid()
    ensures (forall n | 0 <= n <= |events| :: OwnRoles(At(c, events, n).tables))
            <==> (forall n | 0 <= n < |events| :: !SetsForeignRole(At(c, events, n), events[n]))
  {
    hide OwnRoles, SetsForeignRole, At;
    if forall n | 0 <= n <= |events| :: OwnRoles(At(c, events, n).tables) {
      forall n | 0 <= n < |events| ensures !SetsForeignRole(At(c, events, n), events[n]) { StepAt(c, events, n); }
    }
    if forall n | 0 <= n < |events| :: !SetsForeignRole(At(c, events, n), events[n]) {
      forall n | 0 <= n <= |events| ensures OwnRoles(At(c, events, n).tables) { OwnUntil(c, events, n); }
    }
  }

  const TWO_PROJECTS := EMPTY.(projects := Table(map[1 := Project("p", 1), 2 := Project("p", 1)], 3))

  lemma TwoProjects(c: Catalog) returns (reqs: seq<Request>)
    ensures HandleAll(c, EMPTY, reqs) == TWO_PROJECTS
  {
    HandleAllAppend(c, EMPTY, [], CreateProject(1, "p"));
    ProjectCreated(c, EMPTY, 1, "p");
    reqs := [] + [CreateProject(1, "p")];
    HandleAllAppend(c, EMPTY, reqs, CreateProject(1, "p"));
    ProjectCreated(c, HandleAll(c, EMPTY, reqs), 1, "p");
    reqs := reqs + [CreateProject(1, "p")];
  }

  /** Handled one after the other: two projects, a role of the second, a user in the first, who is then given that role. */
  lemma ForeignRoleReached(c: Catalog)
    ensures exists reqs :: !OwnRoles(HandleAll(c, EMPTY, reqs))
  {
    var r2 := TwoProjects(c);
    hide HandleAll, Handle;
    var t3 := TWO_PROJECTS.(users := Table(map[1 := User("u")], 2));
    var t4 := t3.(projectRoles := Table(map[1 := ProjectRole(2, "r")], 2));
    var t5 := t4.(members := map[(1, 1) := Member(None, None, None)]);
    var t6 := t4.(members := map[(1, 1) := Member(Some(1), None, None)]);
    HandleAllAppend(c, EMPTY, r2, CreateUser("u"));
    UserCreated(c, TWO_PROJECTS, "u");
    var r3 := r2 + [CreateUser("u")];
    HandleAllAppend(c, EMPTY, r3, CreateRole(2, "r"));
    RoleCreated(c, t3, 2, "r");
    var r4 := r3 + [CreateRole(2, "r")];
    HandleAllAppend(c, EMPTY, r4, AssignUser(1, 1));
    UserAssigned(c, t4, 1, 1);
    var r5 := r4 + [AssignUser(1, 1)];
    HandleAllAppend(c, EMPTY, r5, SetUserRole(1, 1, 1));
    UserRoleSet(c, t5, 1, 1, 1);
    assert t5.members[(1, 1) := Member(Some(1), None, None)] == t6.members;
    assert !OwnRole(t6, (1, 1), t6.members[(1, 1)].projectRoleId);
    assert HandleAll(c, EMPTY, r5 + [SetUserRole(1, 1, 1)]) == t6;
  }
}
