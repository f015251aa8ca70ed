/** What each request about a membership leaves in the member's row, and when it succeeds, read off the tables before and
    after it. */
module Memberships {
  import opened Wrappers
  import opened Catalog
  import opened Tables
  import opened Statements
  import opened Requests
  import opened PolicyTables

  /** The row of `k` is `m`, every other membership is as it was, and so is every other table. */
  ghost predicate OnlyMember(t: Tables, t': Tables, k: (nat, nat), m: Member) {
    && (forall j :: j in t'.members <==> j in t.members || j == k)
    && t'.members[k] == m
    && (forall j | j in t.members && j != k :: t'.members[j] == t.members[j])
    && OthersAsTheyWere(t, t')
  }

  /** Every table but that of the memberships is as it was. */
  ghost predicate OthersAsTheyWere(t: Tables, t': Tables) {
    && t'.projects == t.projects && t'.users == t.users && t'.departments == t.departments
    && t'.departmentRoles == t.departmentRoles && t'.policies == t.policies && t'.projectRoles == t.projectRoles
    && t'.permissions == t.permissions && t'.tasks == t.tasks && t'.subtasks == t.subtasks
  }

  /** A request that fails with `failure` leaves everything. */
  ghost predicate Refused(t: Tables, t': Tables, r: Result<Unit>, failure: Failure) {
    r == Err(failure) && t' == t
  }

  /** A user becomes a member of a project that exists, without role and department, unless it is one already. */
  lemma AssigningMeaning(c: Catalog, t: Tables, p: nat, u: nat)
    ensures var (t', r) := Handle(c, t, AssignUser(p, u));
            && (r.Ok? <==> p in t.projects.rows && u in t.users.rows && (p, u) !in t.members)
            && (r.Ok? ==> OnlyMember(t, t', (p, u), Member(None, None, None)))
            && (p !in t.projects.rows ==> Refused(t, t', r, NotFound))
            && (p in t.projects.rows && (p, u) in t.members ==> Refused(t, t', r, Conflict))
            && (p in t.projects.rows && (p, u) !in t.members && u !in t.users.rows ==> Refused(t, t', r, Dangling))
  {
    Unfold(c, t, AssignUser(p, u), Start);
    Unfold(c, t, AssignUser(p, u), Checked);
    Unfold(c, t, AssignUser(p, u), Unrivalled);
    hide Finish;
  }

  /** A member leaves: the row goes, and nothing else. */
  lemma UnassigningMeaning(c: Catalog, t: Tables, p: nat, u: nat)
    ensures var (t', r) := Handle(c, t, UnassignUser(p, u));
            && (r.Ok? <==> (p, u) in t.members)
            && (r.Ok? ==>
                  && (forall j :: j in t'.members <==> j in t.members && j != (p, u))
                  && (forall j | j in t'.members :: t'.members[j] == t.members[j])
                  && OthersAsTheyWere(t, t'))
            && ((p, u) !in t.members ==> Refused(t, t', r, NotFound))
  {
    Unfold(c, t, UnassignUser(p, u), Start);
    hide Finish, DeleteRows;
    DeletedMember(t, (p, u));
  }

  lemma DeletedMember(t: Tables, k: (nat, nat))
    ensures var t' := DeleteRows(t, NOTHING.(members := {k}));
            && (forall j :: j in t'.members <==> j in t.members && j != k)
            && (forall j | j in t'.members :: t'.members[j] == t.members[j])
            && OthersAsTheyWere(t, t')
  {
    NothingHangs(t, NOTHING.(members := {k}));
    PrunedMember(t, k);
    hide Cascade, Prune;
  }

  lemma NothingHangs(t: Tables, x: Dead)
    requires x == NOTHING.(members := x.members)
    ensures Cascade(t, x) == x
  {
    var y := Cascade(t, x);
    assert y.departments == {} && y.projectRoles == {} && y.tasks == {} && y.departmentRoles == {};
    assert y.policies == {} && y.permissions == {} && y.subtasks == {} && y.members == x.members;
  }

  lemma NoneDead<R>(table: Table<R>)
    ensures table.Without({}) == table
  {
    assert table.Without({}).rows == table.rows;
  }

  lemma PrunedMember(t: Tables, k: (nat, nat))
    ensures var t' := Prune(t, NOTHING.(members := {k}));
            && (forall j :: j in t'.members <==> j in t.members && j != k)
            && (forall j | j in t'.members :: t'.members[j] == t.members[j])
            && OthersAsTheyWere(t, t')
  {
    var t' := Prune(t, NOTHING.(members := {k}));
    NoneDead(t.projects);
    NoneDead(t.users);
    NoneDead(t.departments);
    NoneDead(t.departmentRoles);
    NoneDead(t.policies);
    NoneDead(t.projectRoles);
    NoneDead(t.permissions);
    assert t'.tasks.rows == t.tasks.rows && t'.subtasks.rows == t.subtasks.rows;
  }

  lemma References(c: Catalog, t: Tables, k: (nat, nat))
    requires Inv(c, t)
    ensures k in t.members ==> MemberRefers(t, t.members[k])
    ensures forall r | r in t.departmentRoles.rows :: t.departmentRoles.rows[r].departmentId in t.departments.rows
  {
  }

  /** Any existing project role can be given to a member; the department columns stay. */
  lemma RoleSettingMeaning(c: Catalog, t: Tables, p: nat, u: nat, role: nat)
    requires Inv(c, t)
    ensures var (t', r) := Handle(c, t, SetUserRole(p, u, role));
            && (r.Ok? <==> (p, u) in t.members && role in t.projectRoles.rows)
            && (r.Ok? ==>
                  var m := t.members[(p, u)];
                  OnlyMember(t, t', (p, u), Member(Some(role), m.departmentId, m.departmentRoleId)))
            && ((p, u) !in t.members ==> Refused(t, t', r, NotFound))
            && ((p, u) in t.members && role !in t.projectRoles.rows ==> Refused(t, t', r, Dangling))
  {
    References(c, t, (p, u));
    Unfold(c, t, SetUserRole(p, u, role), Start);
    hide Finish, Inv;
  }

  /** A member loses its project role and keeps the department columns. */
  lemma RoleUnsettingMeaning(c: Catalog, t: Tables, p: nat, u: nat)
    requires Inv(c, t)
    ensures var (t', r) := Handle(c, t, UnsetUserRole(p, u));
            && (r.Ok? <==> (p, u) in t.members)
            && (r.Ok? ==>
                  var m := t.members[(p, u)];
                  OnlyMember(t, t', (p, u), Member(None, m.departmentId, m.departmentRoleId)))
            && ((p, u) !in t.members ==> Refused(t, t', r, NotFound))
  {
    References(c, t, (p, u));
    Unfold(c, t, UnsetUserRole(p, u), Start);
    hide Finish, Inv;
  }

  /** A member moves to a department of the project and loses the department role; the project role stays. */
  lemma DepartmentAssigningMeaning(c: Catalog, t: Tables, p: nat, u: nat, d: nat)
    requires Inv(c, t)
    ensures var (t', r) := Handle(c, t, AssignUserToDepartment(p, u, d));
            && (r.Ok? <==> (p, u) in t.members && d in t.departments.rows && t.departments.rows[d].projectId == p)
            && (r.Ok? ==> OnlyMember(t, t', (p, u), Member(t.members[(p, u)].projectRoleId, Some(d), None)))
            && (d !in t.departments.rows ==> Refused(t, t', r, NotFound))
            && (d in t.departments.rows && t.departments.rows[d].projectId != p ==> Refused(t, t', r, Conflict))
            && (d in t.departments.rows && t.departments.rows[d].projectId == p && (p, u) !in t.members ==>
                  Refused(t, t', r, NotFound))
  {
    References(c, t, (p, u));
    Unfold(c, t, AssignUserToDepartment(p, u, d), Start);
    Unfold(c, t, AssignUserToDepartment(p, u, d), Checked);
    hide Finish, Inv;
  }

  /** A member leaves its department: department and department role are gone, the project role stays. */
  lemma DepartmentLeavingMeaning(c: Catalog, t: Tables, p: nat, u: nat)
    requires Inv(c, t)
    ensures var (t', r) := Handle(c, t, RemoveUserFromDepartment(p, u));
            && (r.Ok? <==> (p, u) in t.members)
            && (r.Ok? ==> OnlyMember(t, t', (p, u), Member(t.members[(p, u)].projectRoleId, None, None)))
            && ((p, u) !in t.members ==> Refused(t, t', r, NotFound))
  {
    References(c, t, (p, u));
    Unfold(c, t, RemoveUserFromDepartment(p, u), Start);
    hide Finish, Inv;
  }

  /** A member gets a department role of some department of the project and moves to that department; the project role
      stays. */
  lemma DepartmentRoleSettingMeaning(c: Catalog, t: Tables, p: nat, u: nat, role: nat)
    requires Inv(c, t)
    ensures var (t', r) := Handle(c, t, SetUserDepartmentRole(p, u, role));
            var known := role in t.departmentRoles.rows;
            var own := known && t.departments.rows[t.departmentRoles.rows[role].departmentId].projectId == p;
            && (r.Ok? <==> (p, u) in t.members && own)
            && (r.Ok? ==>
                  OnlyMember(t, t', (p, u), Member(t.members[(p, u)].projectRoleId,
                                                   Some(t.departmentRoles.rows[role].departmentId), Some(role))))
            && ((p, u) !in t.members || !known ==> Refused(t, t', r, NotFound))
            && ((p, u) in t.members && known && !own ==> Refused(t, t', r, Conflict))
  {
    References(c, t, (p, u));
    Unfold(c, t, SetUserDepartmentRole(p, u, role), Start);
    Unfold(c, t, SetUserDepartmentRole(p, u, role), Checked);
    if role in t.departmentRoles.rows {
      Unfold(c, t, SetUserDepartmentRole(p, u, role), RoleRead(t.departmentRoles.rows[role].departmentId));
    }
    hide Finish, Inv;
  }

  /** A member loses its department role and stays in the department, with the project role it has. */
  lemma DepartmentRoleUnsettingMeaning(c: Catalog, t: Tables, p: nat, u: nat)
    requires Inv(c, t)
    ensures var (t', r) := Handle(c, t, UnsetUserDepartmentRole(p, u));
            && (r.Ok? <==> (p, u) in t.members)
            && (r.Ok? ==>
                  var m := t.members[(p, u)];
                  OnlyMember(t, t', (p, u), Member(m.projectRoleId, m.departmentId, None)))
            && ((p, u) !in t.members ==> Refused(t, t', r, NotFound))
  {
    References(c, t, (p, u));
    Unfold(c, t, UnsetUserDepartmentRole(p, u), Start);
    hide Finish, Inv;
  }

  // ── The same write when other requests come in between ──────────────────

  /** The columns a membership request asks for, given the department it may have read before. */
  ghost predicate ColumnsAsked(req: Request, l: Local, before: Member, after: Member) {
    && (req.SetUserRole? ==>
          after.projectRoleId == Some(req.roleId) && after.departmentId == before.departmentId
          && after.departmentRoleId == before.departmentRoleId)
    && (req.UnsetUserRole? ==>
          after.projectRoleId == None && after.departmentId == before.departmentId
          && after.departmentRoleId == before.departmentRoleId)
    && (req.AssignUserToDepartment? ==>
          after.projectRoleId == before.projectRoleId && after.departmentId == Some(req.departmentId)
          && after.departmentRoleId == None)
    && (req.RemoveUserFromDepartment? ==>
          after.projectRoleId == before.projectRoleId && after.departmentId == None && after.departmentRoleId == None)
    && (req.SetUserDepartmentRole? ==>
          && after.projectRoleId == before.projectRoleId && after.departmentRoleId == Some(req.departmentRoleId)
          && l.RoleRead? && after.departmentId == Some(l.departmentId))
    && (req.UnsetUserDepartmentRole? ==>
          after.projectRoleId == before.projectRoleId && after.departmentId == before.departmentId
          && after.departmentRoleId == None)
  }

  /** Whatever other requests did since this one began, its last statement writes just the columns it asks for, to the row
      as it is by then. */
  lemma InterleavedWriteMeaning(c: Catalog, t: Tables, req: Request, l: Local)
    requires IsMembership(req) && !req.AssignUser? && !req.UnassignUser?
    requires Advance(c, t, req, l).1 == Over(Ok(Done))
    ensures var k, t' := (req.projectId, req.userId), Advance(c, t, req, l).0;
            && k in t.members && k in t'.members && OnlyMember(t, t', k, t'.members[k])
            && ColumnsAsked(req, l, t.members[k], t'.members[k])
  {
    hide MemberRefers;
  }
}
