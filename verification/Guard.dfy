/** The GraphQL permission guard, a second implementation of the access decision, and how it relates to the access map. */
module Guard {
  import opened Wrappers
  import opened Text
  import opened Catalog
  import opened Tables
  import opened AccessMap
  import opened MemberAccess
  import opened PolicyTables

  datatype Payload = Payload(sub: nat, email: string, role: string)

  /** `@CheckPermission(resource, action)` on the handler. */
  datatype Metadata = Metadata(resource: string, action: Action)

  datatype Args = Args(projectId: nat, fieldId: nat, workOrderId: nat, id: nat,
        taskId: nat)  // 0 stands for an absent argument

  /** The project of a field and of a work order, in tables outside this model. */
  datatype Links = Links(fields: map<nat, nat>, workOrders: map<nat, nat>)

  const DEFAULT_VIEW_RESOURCES := {"WORK_ORDER", "TASK", "SUBTASK", "DEPARTMENT", "USER", "FIELD", "PROJECT_FIELD"}

  /** The guard's defaults are those of the project service and the two field resources. */
  lemma DefaultsAgree()
    ensures forall s :: s in DEFAULT_VIEW_RESOURCES <==> s in ROOEEL.defaults || s in ROOEEL.fields
  {
  }

  // ── The decision for a member ───────────────────────────────────────────

  /** The rows of the member's project role, of any department, for exactly this resource. */
  function RolePermissions(t: Tables, m: Member, key: string): set<nat> {
    set p | p in t.permissions.rows && m.projectRoleId == Some(t.permissions.rows[p].projectRoleId)
        && t.permissions.rows[p].resource == key
  }

  function RolePolicies(t: Tables, m: Member, key: string): set<nat> {
    set p | p in t.policies.rows && m.departmentRoleId == Some(t.policies.rows[p].departmentRoleId)
        && t.policies.rows[p].resource == key
  }

  /** What the nested selects answered, in the database's order. */
  ghost predicate GuardAnswers(t: Tables, m: Member, key: string, f: Fetch) {
    Lists(f.policies, RolePolicies(t, m, key)) && Lists(f.permissions, RolePermissions(t, m, key))
  }

  /** The end of `canActivate`, from the membership on. */
  function Decide(defaults: set<string>, t: Tables, m: Member, resource: string, a: Action, f: Fetch): Result<bool>
    requires Known(t, f)
  {
    var key := ToUpper(resource);
    if f.permissions == [] && f.policies == [] then
      if a == View && key in defaults then Ok(true) else Err(Forbidden)
    else if (resource == "TASK" || resource == "SUBTASK") && f.permissions != []
            && t.permissions.rows[f.permissions[0]].departmentId.Some?
            && m.departmentId != t.permissions.rows[f.permissions[0]].departmentId then
      Err(Forbidden)
    else if f.policies != [] then
      if t.policies.rows[f.policies[0]].flags.Allows(a) then Ok(true) else Err(Forbidden)
    else
      if t.permissions.rows[f.permissions[0]].flags.Allows(a) then Ok(true) else Err(Forbidden)
  }

  // ── The guard and the map ───────────────────────────────────────────────

  ghost predicate OnlyProjectWide(t: Tables, m: Member) {
    forall p | p in t.permissions.rows && m.projectRoleId == Some(t.permissions.rows[p].projectRoleId) ::
      t.permissions.rows[p].departmentId.None?
  }

  /** The stored rows answer every question about one key alike: a member has at most one of each kind. */
  lemma OneRowEach(c: Catalog, t: Tables, m: Member, key: string)
    requires Inv(c, t) && OneRowPerKey(t) && OnlyProjectWide(t, m)
    ensures forall p, q | p in RolePermissions(t, m, key) && q in RolePermissions(t, m, key) :: p == q
    ensures forall p, q | p in RolePolicies(t, m, key) && q in RolePolicies(t, m, key) :: p == q
  {
  }

  lemma GuardAnswersKnown(t: Tables, m: Member, key: string, f: Fetch)
    requires GuardAnswers(t, m, key, f)
    ensures Known(t, f)
  {
    forall p | p in f.policies ensures p in t.policies.rows { assert p in RolePolicies(t, m, key); }
    forall p | p in f.permissions ensures p in t.permissions.rows { assert p in RolePermissions(t, m, key); }
  }

  /** What the map's rows say about a key is what the one row the guard finds says. */
  lemma MapReadsGuardRows(c: Catalog, t: Tables, m: Member, key: string, f: Fetch, g: Fetch)
    requires c.Valid() && Inv(c, t) && OneRowPerKey(t) && OnlyProjectWide(t, m) && key != ""
    requires Answers(t, m, f) && GuardAnswers(t, m, key, g)
    ensures Known(t, f) && Known(t, g)
    ensures Granted(PolicyGrants(t, f.policies), PermissionGrants(t, f.permissions), key) ==
            if g.policies != [] then Some(t.policies.rows[g.policies[0]].flags)
            else if g.permissions != [] then Some(t.permissions.rows[g.permissions[0]].flags)
            else None
  {
    AnswersKnown(t, m, f);
    GuardAnswersKnown(t, m, key, g);
    OneRowEach(c, t, m, key);
    PoliciesForKey(c, t, m, key, f, g);
    PermissionsForKey(c, t, m, key, f, g);
  }

  lemma PoliciesForKey(c: Catalog, t: Tables, m: Member, key: string, f: Fetch, g: Fetch)
    requires SoundGrants(c, t) && Known(t, f) && Known(t, g)
    requires Lists(f.policies, MatchingPolicies(t, m)) && Lists(g.policies, RolePolicies(t, m, key))
    requires forall p, q | p in RolePolicies(t, m, key) && q in RolePolicies(t, m, key) :: p == q
    ensures LastMatch(PolicyGrants(t, f.policies), key) ==
            if g.policies != [] then Some(t.policies.rows[g.policies[0]].flags) else None
  {
    var rows := PolicyGrants(t, f.policies);
    LastMatchMeaning(rows, key);
    if g.policies != [] {
      var p := g.policies[0];
      assert p in RolePolicies(t, m, key) && p in MatchingPolicies(t, m);
      var i :| 0 <= i < |f.policies| && f.policies[i] == p;
      assert rows[i] in rows && rows[i].Key() == key;
    }
    forall i | 0 <= i < |rows| && rows[i].Key() == key
        ensures g.policies != [] && rows[i].flags == t.policies.rows[g.policies[0]].flags {
      assert f.policies[i] in MatchingPolicies(t, m);
      assert f.policies[i] in RolePolicies(t, m, key);
      assert f.policies[i] in g.policies && g.policies[0] in RolePolicies(t, m, key);
    }
  }

  lemma PermissionsForKey(c: Catalog, t: Tables, m: Member, key: string, f: Fetch, g: Fetch)
    requires SoundGrants(c, t) && Known(t, f) && Known(t, g) && OnlyProjectWide(t, m)
    requires Lists(f.permissions, MatchingPermissions(t, m)) && Lists(g.permissions, RolePermissions(t, m, key))
    requires forall p, q | p in RolePermissions(t, m, key) && q in RolePermissions(t, m, key) :: p == q
    ensures var rows := PermissionGrants(t, f.permissions);
            var row := if g.permissions != [] then Some(t.permissions.rows[g.permissions[0]].flags) else None;
            FirstMatch(rows, key) == row && AnyMatch(rows, key) == row
  {
    var rows := PermissionGrants(t, f.permissions);
    FirstMatchMeaning(rows, key);
    if g.permissions != [] {
      var p := g.permissions[0];
      assert p in RolePermissions(t, m, key) && p in MatchingPermissions(t, m);
      var i :| 0 <= i < |f.permissions| && f.permissions[i] == p;
      assert rows[i] in rows && rows[i].Key() == key;
    }
    forall i | 0 <= i < |rows| && rows[i].Key() == key
      ensures g.permissions != [] && rows[i].flags == t.permissions.rows[g.permissions[0]].flags
    {
      assert f.permissions[i] in MatchingPermissions(t, m);
      assert f.permissions[i] in RolePermissions(t, m, key);
      assert f.permissions[i] in g.permissions && g.permissions[0] in RolePermissions(t, m, key);
    }
    AnyMatchMeaning(rows, key, View);
    AllAlike(rows, key, if g.permissions != [] then Some(t.permissions.rows[g.permissions[0]].flags) else None);
  }

  /** Merging rows that all agree changes nothing. */
  lemma {:induction false} AllAlike(rows: seq<Grant>, key: string, row: Option<Flags>)
    requires forall i | 0 <= i < |rows| && rows[i].Key() == key :: row == Some(rows[i].flags)
    ensures AnyMatch(rows, key).Some? ==> AnyMatch(rows, key) == row
  {
    if rows != [] {
      var rest, last := rows[..|rows| - 1], rows[|rows| - 1];
      AllAlike(rest, key, row);
      assert last.Key() == key ==> row == Some(last.flags) && last.flags.Or(last.flags) == last.flags;
    }
  }

  /** For a member whose project role has only project-wide permissions, the guard allows whatever the map allows; the two
      differ only on viewing a default resource that no row speaks of, and there exactly when the map has another row
      to go by or does not know the default. */
  lemma GuardRefinesMap(c: Catalog, defaults: set<string>, t: Tables, m: Member, resource: string, a: Action, f: Fetch,
        g: Fetch)
    requires c.Valid() && Inv(c, t) && OneRowPerKey(t) && OnlyProjectWide(t, m)
    requires Trimmed(resource) && resource != "" && forall s | s in c.defaults :: s in defaults
    requires Answers(t, m, f) && GuardAnswers(t, m, ToUpper(resource), g)
    ensures Known(t, f) && Known(t, g)
    ensures var mapped := CanAccess(AccessOf(c, t, f), resource, a);
            var guard := Decide(defaults, t, m, resource, a, g).Ok?;
            && (mapped ==> guard)
            && (g.policies != [] || g.permissions != [] ==> mapped == guard)
            && (mapped != guard <==>
                  && g.policies == [] && g.permissions == []
                  && a == View && ToUpper(resource) in defaults
                  && (f.policies != [] || f.permissions != [] || ToUpper(resource) !in c.defaults))
  {
    var key := ToUpper(resource);
    TrimFixed(resource);
    assert Normalize(resource) == key;
    MapReadsGuardRows(c, t, m, key, f, g);
    AccessIsRule(c, PolicyGrants(t, f.policies), PermissionGrants(t, f.permissions), key);
    FirstRowIsProjectWide(t, m, key, g);
    assert key in c.hardcoded ==> key !in c.defaults;
    hide Inv, OneRowPerKey, OnlyProjectWide, Answers, GuardAnswers, Granted, Access;
  }

  lemma FirstRowIsProjectWide(t: Tables, m: Member, key: string, g: Fetch)
    requires OnlyProjectWide(t, m) && GuardAnswers(t, m, key, g) && Known(t, g)
    ensures g.permissions != [] ==> t.permissions.rows[g.permissions[0]].departmentId.None?
  {
    if g.permissions != [] { assert g.permissions[0] in RolePermissions(t, m, key); }
  }

  // ── canActivate ─────────────────────────────────────────────────────────

  class HttpRequest {
    const authorization: string  // empty when there is no header
    var user: Option<Payload>

    constructor (authorization: string)
      ensures this.authorization == authorization && user == None
    {
      this.authorization := authorization;
      user := None;
    }
  }

  predicate StartsWith(s: string, prefix: string) {
    |prefix| <= |s| && s[..|prefix|] == prefix
  }

  /** `split(' ')[1]` of a header that starts with `Bearer `. */
  function UpToSpace(s: string): string {
    if s == "" || s[0] == ' ' then "" else [s[0]] + UpToSpace(s[1..])
  }

  /** The token of a header `Bearer <token>`, whatever follows a further space. */
  lemma BearerToken(token: string, rest: string)
    requires (forall ch | ch in token :: ch != ' ') && (rest == "" || rest[0] == ' ')
    ensures var header := "Bearer " + (token + rest);
            StartsWith(header, "Bearer ") && UpToSpace(header[7..]) == token
  {
    UpToSpaceMeaning(token, rest);
    var header := "Bearer " + (token + rest);
    assert |"Bearer "| == 7 && header[..7] == "Bearer " && header[7..] == token + rest;
    hide UpToSpace;
  }

  lemma {:induction false} UpToSpaceMeaning(token: string, rest: string)
    requires (forall ch | ch in token :: ch != ' ') && (rest == "" || rest[0] == ' ')
    ensures UpToSpace(token + rest) == token
  {
    if token == "" {
      assert token + rest == rest;
    } else {
      assert (token + rest)[1..] == token[1..] + rest && token[0] in token;
      assert forall ch | ch in token[1..] :: ch in token;
      UpToSpaceMeaning(token[1..], rest);
    }
  }

  /** The project a request is about; 0 when it cannot be determined. */
  function ProjectOf(t: Tables, links: Links, resource: string, args: Args): nat {
    if args.projectId != 0 then args.projectId
    else if args.fieldId != 0 then (if args.fieldId in links.fields then links.fields[args.fieldId] else 0)
    else if args.workOrderId != 0 then (if args.workOrderId in links.workOrders then links.workOrders[args.workOrderId]
        else 0)
    else if args.id != 0 then
      if resource == "DEPARTMENT" then (if args.id in t.departments.rows then t.departments.rows[args.id].projectId else 0)
      else if resource == "TASK" then (if args.id in t.tasks.rows then t.tasks.rows[args.id].projectId else 0)
      else if resource == "SUBTASK" then
        (if args.id in t.subtasks.rows && t.subtasks.rows[args.id].taskId in t.tasks.rows
         then t.tasks.rows[t.subtasks.rows[args.id].taskId].projectId else 0)
      else 0
    else if args.taskId != 0 then (if args.taskId in t.tasks.rows then t.tasks.rows[args.taskId].projectId else 0)
    else 0
  }

  /** The database answered for the member the request is about, if it comes to that. */
  ghost predicate Answered(t: Tables, links: Links, payload: Option<Payload>, metadata: Option<Metadata>, args: Args,
        f: Fetch) {
    payload.Some? && metadata.Some? ==>
      var k := (ProjectOf(t, links, metadata.value.resource, args), payload.value.sub);
      k in t.members ==> GuardAnswers(t, t.members[k], ToUpper(metadata.value.resource), f)
  }

  /** What becomes of a request, given what its token holds. */
  function Outcome(defaults: set<string>, t: Tables, links: Links, payload: Option<Payload>, metadata: Option<Metadata>,
        args: Args, f: Fetch)
    : Result<bool>
    requires Answered(t, links, payload, metadata, args, f)
  {
    if payload.None? then Err(Unauthorized)
    else if payload.value.role == "admin" || metadata.None? then Ok(true)
    else
      var k := (ProjectOf(t, links, metadata.value.resource, args), payload.value.sub);
      if k.0 == 0 || k !in t.members then Err(Forbidden)
      else
        GuardAnswersKnown(t, t.members[k], ToUpper(metadata.value.resource), f);
        Decide(defaults, t, t.members[k], metadata.value.resource, metadata.value.action, f)
  }

  // ── Who is let through, read off the rows ───────────────────────────────

  /** The flag for the action is set. */
  predicate Sets(f: Flags, a: Action) {
    && (a == View ==> f.canView) && (a == Create ==> f.canCreate) && (a == Edit ==> f.canEdit) && (a == Delete ==>
        f.canDelete)
  }

  /** Row `p` is a permission of the member's project role for exactly this resource, of whatever department. */
  predicate RoleHas(t: Tables, m: Member, key: string, p: nat) {
    && p in t.permissions.rows && t.permissions.rows[p].resource == key
    && m.projectRoleId.Some? && t.permissions.rows[p].projectRoleId == m.projectRoleId.value
  }

  /** Row `p` is a policy of the member's department role for exactly this resource. */
  predicate DepartmentRoleHas(t: Tables, m: Member, key: string, p: nat) {
    && p in t.policies.rows && t.policies.rows[p].resource == key
    && m.departmentRoleId.Some? && t.policies.rows[p].departmentRoleId == m.departmentRoleId.value
  }

  /** What the member's rows for the resource must be for the member to be let through: none at all, and the action views a
      default; or the policy found first sets the action's flag; or there is no policy, and the permission found first does.
      A departmental permission found first must, for TASK and SUBTASK, be one of the member's department. */
  ghost predicate RowsAdmit(defaults: set<string>, t: Tables, m: Member, resource: string, a: Action, f: Fetch)
    requires Known(t, f)
  {
    var key := ToUpper(resource);
    var noPolicy, noPermission := forall p: nat :: !DepartmentRoleHas(t, m, key, p), forall p: nat :: !RoleHas(t, m, key, p);
    && (noPolicy <==> f.policies == []) && (noPermission <==> f.permissions == [])
    && (noPolicy && noPermission ==> a == View && key in defaults)
    && (!noPermission ==>
          && RoleHas(t, m, key, f.permissions[0])
          && var row := t.permissions.rows[f.permissions[0]];
             && (noPolicy ==> Sets(row.flags, a))
             && (resource in {"TASK", "SUBTASK"} && row.departmentId.Some? ==> m.departmentId == row.departmentId))
    && (!noPolicy ==>
          DepartmentRoleHas(t, m, key, f.policies[0]) && Sets(t.policies.rows[f.policies[0]].flags, a))
  }

  lemma AnswersTell(t: Tables, m: Member, key: string, f: Fetch)
    requires GuardAnswers(t, m, key, f)
    ensures f.policies == [] <==> forall p: nat :: !DepartmentRoleHas(t, m, key, p)
    ensures f.permissions == [] <==> forall p: nat :: !RoleHas(t, m, key, p)
    ensures f.policies != [] ==> DepartmentRoleHas(t, m, key, f.policies[0])
    ensures f.permissions != [] ==> RoleHas(t, m, key, f.permissions[0])
  {
    if f.policies != [] {
      assert f.policies[0] in RolePolicies(t, m, key);
      assert DepartmentRoleHas(t, m, key, f.policies[0]);
    }
    if f.permissions != [] {
      assert f.permissions[0] in RolePermissions(t, m, key);
      assert RoleHas(t, m, key, f.permissions[0]);
    }
    forall p: nat ensures DepartmentRoleHas(t, m, key, p) ==> p in f.policies {
      assert DepartmentRoleHas(t, m, key, p) ==> p in RolePolicies(t, m, key);
    }
    forall p: nat ensures RoleHas(t, m, key, p) ==> p in f.permissions {
      assert RoleHas(t, m, key, p) ==> p in RolePermissions(t, m, key);
    }
  }

  lemma DecideMeaning(defaults: set<string>, t: Tables, m: Member, resource: string, a: Action, f: Fetch)
    requires GuardAnswers(t, m, ToUpper(resource), f)
    ensures Known(t, f)
    ensures Decide(defaults, t, m, resource, a, f) ==
            if RowsAdmit(defaults, t, m, resource, a, f) then Ok(true) else Err(Forbidden)
  {
    GuardAnswersKnown(t, m, ToUpper(resource), f);
    AnswersTell(t, m, ToUpper(resource), f);
    hide GuardAnswers, RoleHas, DepartmentRoleHas;
  }

  /** The user is a member of the project, and the member's rows admit the action. */
  ghost predicate AdmittedTo(defaults: set<string>, t: Tables, projectId: nat, user: Payload, metadata: Metadata, f: Fetch) {
    && (projectId, user.sub) in t.members && Known(t, f)
    && RowsAdmit(defaults, t, t.members[(projectId, user.sub)], metadata.resource, metadata.action, f)
  }

  /** A user who is no administrator, on a handler with metadata, is let through exactly as a member, admitted by the
      member's own rows, of the project that owns the row the request addresses: the project named by the arguments; else
      that of the field; else that of the work order; else, for an `id`, that of the department, of the task, or of the task
      the subtask belongs to, whichever the handler is about; else that of the task. Everyone else is refused. */
  lemma LetThroughIff(defaults: set<string>, t: Tables, links: Links, user: Payload, metadata: Metadata, args: Args,
        f: Fetch)
    requires ValidIds(t) && ForeignKeys(t) && Answered(t, links, Some(user), Some(metadata), args, f) && user.role != "admin"
    requires (forall i | i in links.fields :: links.fields[i] != 0) && forall i | i in links.workOrders ::
               links.workOrders[i] != 0
    ensures var r := Outcome(defaults, t, links, Some(user), Some(metadata), args, f);
            && (r == Ok(true) || r == Err(Forbidden))
            && (args.projectId != 0 ==>
                  (r.Ok? <==> AdmittedTo(defaults, t, args.projectId, user, metadata, f)))
            && (args.projectId == 0 && args.fieldId != 0 ==>
                  (r.Ok? <==> args.fieldId in links.fields
                              && AdmittedTo(defaults, t, links.fields[args.fieldId], user, metadata, f)))
            && (args.projectId == args.fieldId == 0 && args.workOrderId != 0 ==>
                  (r.Ok? <==> args.workOrderId in links.workOrders
                              && AdmittedTo(defaults, t, links.workOrders[args.workOrderId], user, metadata, f)))
            && (args.projectId == args.fieldId == args.workOrderId == 0 && args.id != 0 ==>
                  && (metadata.resource == "DEPARTMENT" ==>
                        (r.Ok? <==> args.id in t.departments.rows
                                    && AdmittedTo(defaults, t, t.departments.rows[args.id].projectId, user, metadata, f)))
                  && (metadata.resource == "TASK" ==>
                        (r.Ok? <==> args.id in t.tasks.rows
                                    && AdmittedTo(defaults, t, t.tasks.rows[args.id].projectId, user, metadata, f)))
                  && (metadata.resource == "SUBTASK" ==>
                        (r.Ok? <==> args.id in t.subtasks.rows
                                    && AdmittedTo(defaults, t, t.tasks.rows[t.subtasks.rows[args.id].taskId].projectId,
                                                  user, metadata, f)))
                  && (metadata.resource !in {"DEPARTMENT", "TASK", "SUBTASK"} ==> r.Err?))
            && (args.projectId == args.fieldId == args.workOrderId == args.id == 0 && args.taskId != 0 ==>
                  (r.Ok? <==> args.taskId in t.tasks.rows
                              && AdmittedTo(defaults, t, t.tasks.rows[args.taskId].projectId, user, metadata, f)))
            && (args == Args(0, 0, 0, 0, 0) ==> r.Err?)
  {
    var k := (ProjectOf(t, links, metadata.resource, args), user.sub);
    OwnersAreProjects(t);
    if k in t.members { DecideMeaning(defaults, t, t.members[k], metadata.resource, metadata.action, f); }
    hide RowsAdmit, Decide, GuardAnswers, ValidIds, ForeignKeys;
  }

  lemma OwnersAreProjects(t: Tables)
    requires ValidIds(t) && ForeignKeys(t)
    ensures forall d | d in t.departments.rows :: t.departments.rows[d].projectId != 0
    ensures forall i | i in t.tasks.rows :: t.tasks.rows[i].projectId != 0
    ensures forall i | i in t.subtasks.rows :: t.subtasks.rows[i].taskId in t.tasks.rows
  {
  }

  /** `canActivate`: who is let through, and with which exception others are turned away. `f` is what the database answers
      for the member the request resolves to. */
  method CanActivate(t: Tables, links: Links, verify: string -> Option<Payload>, defaults: set<string>,
                     req: HttpRequest, metadata: Option<Metadata>, args: Args, f: Fetch)
    returns (r: Result<bool>)
    requires Answered(t, links, if StartsWith(req.authorization, "Bearer ")
               then verify(UpToSpace(req.authorization[7..])) else None,
                      metadata, args, f)
    modifies req
    ensures var payload := if StartsWith(req.authorization, "Bearer ") then verify(UpToSpace(req.authorization[7..]))
              else None;
            && req.user == (if payload.Some? then payload else old(req.user))
            && r == Outcome(defaults, t, links, payload, metadata, args, f)
  {
    if !StartsWith(req.authorization, "Bearer ") { return Err(Unauthorized); }
    var token := UpToSpace(req.authorization[7..]);
    var payload := verify(token);
    if payload.None? { return Err(Unauthorized); }
    req.user := payload;
    var user := payload.value;
    if user.role == "admin" { return Ok(true); }
    if metadata.None? { return Ok(true); }
    var resource, action := metadata.value.resource, metadata.value.action;
    var projectId := args.projectId;
    if projectId == 0 {
      if args.fieldId != 0 {
        if args.fieldId in links.fields { projectId := links.fields[args.fieldId]; }
      } else if args.workOrderId != 0 {
        if args.workOrderId in links.workOrders { projectId := links.workOrders[args.workOrderId]; }
      } else if args.id != 0 {
        if resource == "DEPARTMENT" {
          if args.id in t.departments.rows { projectId := t.departments.rows[args.id].projectId; }
        } else if resource == "TASK" {
          if args.id in t.tasks.rows { projectId := t.tasks.rows[args.id].projectId; }
        } else if resource == "SUBTASK" {
          if args.id in t.subtasks.rows && t.subtasks.rows[args.id].taskId in t.tasks.rows {
            projectId := t.tasks.rows[t.subtasks.rows[args.id].taskId].projectId;
          }
        }
      } else if args.taskId != 0 {
        if args.taskId in t.tasks.rows { projectId := t.tasks.rows[args.taskId].projectId; }
      }
    }
    if projectId == 0 { return Err(Forbidden); }
    if (projectId, user.sub) !in t.members { return Err(Forbidden); }
    GuardAnswersKnown(t, t.members[(projectId, user.sub)], ToUpper(resource), f);
    hide GuardAnswers;
    var projectUser := t.members[(projectId, user.sub)];
    var permission := if f.permissions != [] then Some(t.permissions.rows[f.permissions[0]]) else None;
    var departmentPolicy := if f.policies != [] then Some(t.policies.rows[f.policies[0]]) else None;
    if permission.None? && departmentPolicy.None? {
      if action == View && ToUpper(resource) in defaults { return Ok(true); }
      return Err(Forbidden);
    }
    if resource == "TASK" || resource == "SUBTASK" {
      if permission.Some? && permission.value.departmentId.Some?
          && projectUser.departmentId != permission.value.departmentId {
        return Err(Forbidden);
      }
    }
    var isAllowed := false;
    match action {
      case View =>
        isAllowed := if departmentPolicy.Some? then departmentPolicy.value.flags.canView else permission.value.flags.canView;
      case Create =>
        isAllowed := if departmentPolicy.Some? then departmentPolicy.value.flags.canCreate
            else permission.value.flags.canCreate;
      case Edit =>
        isAllowed := if departmentPolicy.Some? then departmentPolicy.value.flags.canEdit else permission.value.flags.canEdit;
      case Delete =>
        isAllowed := if departmentPolicy.Some? then departmentPolicy.value.flags.canDelete
            else permission.value.flags.canDelete;
    }
    if !isAllowed { return Err(Forbidden); }
    return Ok(true);
  }
}
