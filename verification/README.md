# Rooeel: access, sessions and task workflow, verified

This project models the authorisation and session state of the Rooeel backend in Dafny and proves properties of the model.
`dafny verify dfyconfig.toml` checks all of it.

**The store and the access map.** `Tables` holds the rows that decide access (projects, departments, department roles and
their policies, project roles and their permissions, memberships, tasks), the foreign keys between them and what a delete
cascades to or sets to null. `Statements` has one function for each database statement; each is atomic and enforces foreign
keys and unique indexes. `Requests` cuts every administrator's request into its statements and lets any number of requests
interleave. `Catalog` holds the service's hard-coded resource names, the alias table and the flags a policy write stores.
`AccessMap` is the loop code that turns a member's rows into an access map, with the pointwise rule the loops compute;
`MemberAccess` connects it to the tables, `AccessOrder` says when the order of rows matters, and `Guard`, `GuardExact` and
`GuardMirror` compare it with the second implementation of the same decision. `PolicyTables`, `PolicyRuns` and
`SequentialRuns` show that the permission and policy tables are last-writer-wins maps in the sense of `KeyedTables`,
`PolicyRaces` when interleaved permission writes keep that, and `ProjectRoles` when members keep a role of their own project.
`Scripts` has the small stores the failing cases start from. `TaskSchema` and `Tasks` cover creating, changing, removing and
listing tasks, `TaskRaces` interleaves their checks and writes, and `TaskAccounts` says who passes as a creator.
`ProjectService` is the service itself, a class that updates its tables in place; each method is proved equal to the request
function that the run theorems speak about.

**What each call does.** The functions behind the run theorems are read off the tables before and after a call, column by
column and without naming those functions: `Memberships` for the requests about a member, `RequestEffects` for the other
requests and what a delete leaves, `AccessEntries` for the entries of an access map, `TaskGates` for who makes a task appear,
change, disappear or be listed, and the lemmas named `...Meaning` elsewhere. Where calls are cut into statements, a lemma
named `...IsOneStep` or `...IsOneCall` says that without interruption the statements are the call.

**Sessions.** `Tokens` models refresh-token rotation, logout and the access-token blacklist with each call as one step;
`TokenRaces` interleaves the database statements of those calls, and `TokenForks` says exactly when that goes wrong;
`AuthService` is the class that updates its rows and cache.

**Small workflows and text.** `ResetTokens` (two services over one table of password-reset tokens) and `ResetRaces` (the
same, interleaved), `ChangeRequests` (profile and password change requests), `Cookies` (reading the refresh token from the
`Cookie` header), `WorkOrderNames` (file names) and `Expiry` (configured lifetimes).

## Reading the model

- A `Catalog` is a parameter of most results; `Catalog.RooeelIsValid` shows that the lists in the source satisfy what is
  asked of it, so the results hold for the service as it is.
- What the database leaves open is an input: the order of rows a `findMany` returns and the account lookup of a refresh
  are arbitrary, and the current time is a parameter of every step, not required to be monotone.
- `JSON.parse`, `String(x)` and `Number(x)` are an arbitrary `Json.Library`; `bcrypt.compare` is an arbitrary predicate;
  token identifiers and reset tokens are numbers never used before, standing for `uuid` and random bytes; a signed token is
  its content, so hashing it loses nothing. A cache entry is visible for exactly the time it was set for.
- Administrators and users are separate tables that number from 1, so an account number stands for two accounts. Tokens and
  the creator stamp of a task carry the number; results about them speak of numbers, and `Tokens.LogoutTouchesIff` and
  `TaskAccounts.StrangerTrustedIff` say exactly what that means for accounts.
- Row identifiers are positive and never reused. Upper and lower case are ASCII.
- Refresh tokens are signed with the lifetime that the JWT library reads from the configuration and stored with the one that
  `parseExpiry` (module `Expiry`) reads; the two may differ, so they are two fields of `Tokens.Config`.

## Where the code differs from what one might expect

- The department-role branch lets the first matching permission row decide, the other branch merges all of them. A member's
  map is independent of the order of rows exactly when the member has no department-role policy or the matching permissions
  agree on every resource without policy (`AccessOrder.OrderFreeIff`); a project-wide and a departmental row can disagree, and
  ordinary requests lead there (`AccessOrder.OrderMattersSomewhere`).
- The guard lets the first row of the role decide even when it is scoped to another department, so it can deny what the map
  allows (`GuardExact.ScopedRowsBreakRefinement`). It covers the map exactly when no row order makes the map allow the
  action or every row order makes the guard allow it, a condition on the stored rows (`GuardExact.GuardCoversMapIff`). With
  project-wide permissions only it always does, and `Guard.GuardRefinesMap` says where the two differ.
- In the other direction, the guard lets a row of any department decide on resources other than TASK and SUBTASK, so it can
  allow what the map denies; `GuardMirror.MapCoversGuardIff` says exactly when it does not.
- `setPermission` with a null department finds and then writes. A call that inserts because its lookup found nothing, when by
  then there is a row, is the one statement that leaves two rows for a key (`PolicyRaces.StepKeepsOneRowIff`); two racing
  calls can do so exactly when there is no row yet (`PolicyRaces.RacingWritersDuplicateIff`).
- `refreshTokens` reads and then writes. Rows keep at most one successor or refresh in flight exactly as long as no lookup is
  accepted while another refresh of the same row is in flight (`TokenForks.RunExclusiveIff`); once that has happened, the
  row can get two successors (`TokenForks.CanForkIff`). A logout ends all
  sessions of an account number exactly when none of its refreshes is in flight (`TokenForks.LogoutEndsAllIff`).
- Logout swallows cache errors and then leaves the refresh tokens alone: the rows under the bearer's number are all revoked
  exactly in the cases `Tokens.LogoutRevokesIff` lists. It goes by that number alone, so a user's logout ends the sessions of
  the administrator with the same number too (`Tokens.LogoutTouchesIff`, `Tokens.LogoutCrossesAccounts`).
- The creator stamp of a task is a number as well: a user with an administrator's number passes as the creator of what that
  administrator made (`TaskAccounts.StrangerTrustedIff`, `TaskAccounts.StrangerFinishesSomewhere`).
- The reset services look a token up and then write. A token changes two passwords, or could, exactly when a lookup overlaps
  with another call on it (`ResetRaces.RunExclusiveIff`).
- A member without a department is shown fewer tasks inside a project than by the task list; `Tasks.SameTasksShown` names
  the difference.
- `setUserRole` does not check that the role belongs to the project, and its successful write of another project's role is
  the only statement that gives a member a role of another project (`ProjectRoles.StepKeepsOwnRolesIff`).

## Model

| member | source | states |
|---|---|---|
| `Text.NormalizeMeaning` | src/project/services/project.service.ts:132-134 | every normalised resource is trimmed and upper case, and such a name is its own normal form |
| `Text.NormalFormIsSpelled` | src/project/services/project.service.ts:132-134 | a text normalises to exactly the upper-case name it spells in any case and between any white space |
| `Catalog.NormalizePolicyResourceIdempotent` | src/project/services/project.service.ts:136-250 | on all strings, a resource resolved through the aliases resolves to itself |
| `Catalog.NormalizePolicyResourceMeaning` | src/project/services/project.service.ts:136-250 | however it is spelled, an alias resolves to the task name the table gives, which is allowed; any other name, and whatever is allowed, resolves to itself |
| `Catalog.ViewFoldersResolves` | src/project/services/project.service.ts:144 | in the service as it is, any spelling of VIEW_FOLDERS resolves to DRAWING_VIEW_FOLDERS |
| `Catalog.BuildPolicyFlagsMeaning` | src/project/services/project.service.ts:312-335 | stored flags never change a view-only task and always view what they change; on a view-only task only the view flag asked for is stored; a sensible request is stored as it is, and others lose or gain nothing else |
| `Catalog.RooeelIsValid` | src/project/services/project.service.ts:15-98 | the hard-coded lists and aliases are coherent: normal forms, view-only names are tasks, aliases lead to tasks in one step, no allowed name is an alias, no task is a default |
| `AccessMap.AccessMap.SetAccess` | src/project/services/project.service.ts:261-274 | the entry of the normalised key is replaced, no other entry changes, an empty key is ignored |
| `AccessMap.AccessMap.MergeAccess` | src/project/services/project.service.ts:276-288 | the entry of the normalised key gains the flags, no other entry changes |
| `AccessMap.OverrideWithPolicies` | src/project/services/project.service.ts:466-475 | after the first loop each key holds the flags of its last policy |
| `AccessMap.FallBackOnPermissions` | src/project/services/project.service.ts:477-488 | after the second loop a key without policy holds the flags of its first permission |
| `AccessMap.MergePermissions` | src/project/services/project.service.ts:489-499 | without policies each key holds the disjunction of its permissions |
| `AccessMap.AddDefaults` | src/project/services/project.service.ts:502-507 | exactly the default resources get view access |
| `AccessMap.FillHardcoded` | src/project/services/project.service.ts:509-513 | a hard-coded task without entry gets an all-false one, entries that exist stay |
| `AccessMap.FillAccessMap` | src/project/services/project.service.ts:437-516 | for any rows in any order the loops compute the pointwise rule at every key |
| `AccessMap.FirstMatchMeaning` | src/project/services/project.service.ts:480-488 | the rule's fallback is the first row of the key, absent exactly when no row has the key |
| `AccessMap.LastMatchMeaning` | src/project/services/project.service.ts:468-475 | the rule's policy is the last one of the key, absent exactly when no policy has the key |
| `AccessMap.AnyMatchMeaning` | src/project/services/project.service.ts:276-288 | merging grants an action exactly when some row of the key grants it |
| `AccessMap.MergeIgnoresOrder` | src/project/services/project.service.ts:489-499 | without policies the map does not depend on the order of the permission rows |
| `AccessMap.FallbackIgnoresOrderIff` | src/project/services/project.service.ts:477-488 | for arbitrary lists of rows, the map with policies is independent of the order of permissions if and only if rows sharing a key without policy agree |
| `AccessOrder.OrderFreeIff` | src/project/services/project.service.ts:437-516 | for every store and member, the map is independent of the order of policies and permissions if and only if the member has no department-role policy or the matching permissions agree on every resource without one |
| `AccessOrder.OrderMattersSomewhere` | src/project/services/project.service.ts:477-488 | ordinary requests reach a store in which a member's map depends on the order |
| `AccessMap.AccessWellFlagged` | src/project/services/project.service.ts:437-516 | overriding, falling back, merging, defaulting and filling all keep flags sensible |
| `AccessMap.CanPerformMeaning` | src/project/services/project.service.ts:398-413 | a task action is decided by the resource's own entry when there is one and by TASK otherwise |
| `AccessMap.TaskRowIrrelevantIff` | src/project/services/project.service.ts:398-413 | what TASK grants is irrelevant if and only if the resource, other than TASK, has its own entry |
| `AccessMap.HardcodedNeverFallsBack` | src/project/services/project.service.ts:398-413 | on a computed map a hard-coded task is decided by its own entry, which only a stored row can make grant anything |
| `AccessMap.OthersFallBackIff` | src/project/services/project.service.ts:398-413 | any other resource is decided by TASK if and only if no row and no default speaks of it |
| `AccessEntries.EntryMeaning` | src/project/services/project.service.ts:437-516 | every entry of a member's map, flag by flag, from the stored rows: the policy of the department role for the key; else one of the permissions that apply, or all merged when there is no policy; else the default view, denial, or nothing |
| `Tables.CascadeIsLeast` | src/prisma/schema.prisma:186-353 | a delete removes the rows the cascade rules demand and not one more |
| `Tables.DeleteRowsKeepsInv` | src/prisma/schema.prisma:186-353 | every delete with its cascades and nulled references keeps keys, placement, every unique index of the access tables and sensible grants |
| `RequestEffects.DeleteMeaning` | src/prisma/schema.prisma:186-353 | after a delete a row is left exactly when it was not deleted and every row it must refer to is left; it is as it was, but nullable references to rows that are gone are null |
| `RequestEffects.RemovalMeaning` | src/project/services/project.service.ts:670-675 | each removal succeeds exactly when its row is there and then deletes it with what hangs on it and nothing else |
| `RequestEffects.CreatingMeaning` | src/project/services/project.service.ts:567-574 | a new project or user is one new row and nothing else |
| `RequestEffects.DepartmentMeaning` | src/project/services/project.service.ts:912-920 | a department is added to an existing project, or renamed, under the very name given, and nothing else changes |
| `RequestEffects.DepartmentRoleMeaning` | src/project/services/project.service.ts:936-943 | a department role is added under its trimmed name exactly when the department exists, the name is not blank and not taken |
| `RequestEffects.DepartmentRoleRenamingMeaning` | src/project/services/project.service.ts:945-965 | a department role is renamed exactly when it exists and no other role of its department has the trimmed, non-blank name |
| `RequestEffects.ProjectRoleMeaning` | src/project/services/project.service.ts:827-843 | the same for adding a role to a project |
| `RequestEffects.ProjectRoleRenamingMeaning` | src/project/services/project.service.ts:845-872 | the same for renaming one |
| `RequestEffects.PermissionMeaning` | src/project/services/project.service.ts:1105-1160 | a permission is written under the name its resource stands for, aliases included, exactly when that name is allowed and role and department exist; its one row then holds the flags to be stored and nothing else has changed |
| `RequestEffects.PolicyMeaning` | src/project/services/project.service.ts:981-1011 | a policy likewise, exactly when the department role exists and the name is allowed |
| `Memberships.AssigningMeaning` | src/project/services/project.service.ts:719-735 | a user becomes a member of an existing project, with three empty columns, unless it is one already; no other row changes |
| `Memberships.UnassigningMeaning` | src/project/services/project.service.ts:737-742 | the member's row goes and nothing else |
| `Memberships.RoleSettingMeaning` | src/project/services/project.service.ts:880-891 | a member gets any existing project role and keeps both department columns; no other row changes |
| `Memberships.RoleUnsettingMeaning` | src/project/services/project.service.ts:893-904 | the project role is cleared, both department columns stay |
| `Memberships.DepartmentAssigningMeaning` | src/project/services/project.service.ts:1019-1038 | a member moves exactly to a department of its project, loses the department role and keeps the project role |
| `Memberships.DepartmentLeavingMeaning` | src/project/services/project.service.ts:1040-1051 | department and department role are both cleared, the project role stays |
| `Memberships.DepartmentRoleSettingMeaning` | src/project/services/project.service.ts:1053-1084 | a member gets exactly a department role of its project, moves to that role's department and keeps the project role |
| `Memberships.DepartmentRoleUnsettingMeaning` | src/project/services/project.service.ts:1086-1097 | the department role is cleared, department and project role stay |
| `Memberships.InterleavedWriteMeaning` | src/project/services/project.service.ts:880-1097 | whatever other requests did in between, the last statement of such a request writes just those columns of the row as it is by then |
| `Requests.AdvanceIsGood` | src/project/services/project.service.ts:719-1168 | every single statement of every request keeps the store sound, moves no row another request in flight relies on, and leaves its own request a memory that is still true |
| `Requests.EveryInterleavingKeepsPlacement` | src/project/services/project.service.ts:1019-1097 | in every interleaving of requests and task writes no foreign key dangles, a member's department is in the member's project, and the department role belongs to exactly that department |
| `Statements.TaskWriteKept` | src/project/services/project.service.ts:1225-1410 | every write about tasks and subtasks, whenever it happens, keeps the store sound |
| `MemberAccess.EveryAccessMapIsSensible` | src/project/services/project.service.ts:437-516 | in every reachable store, for every member and row order, no map changes a view-only task and changing any other hard-coded task implies viewing it |
| `PolicyTables.SetPermissionIsUpsert` | src/project/services/project.service.ts:1105-1160 | find-then-write for null departments and upsert for others are the same insert-or-overwrite when handled in one go |
| `PolicyTables.HandleRefines` | src/project/services/project.service.ts:1105-1166 | one handled request, deletes included, is one step of the last-writer-wins map of permissions |
| `PolicyTables.SequentialRunRefines` | src/project/services/project.service.ts:1105-1166 | along every sequential run the permission table is that map, one row a key, every resource allowed and a fixed point |
| `SequentialRuns.HandledIsInterleaved` | src/project/services/project.service.ts:719-1168 | requests handled one at a time are one of the interleavings, so what holds after each of those holds here |
| `SequentialRuns.SequentialTablesRefine` | src/project/services/project.service.ts:981-1166 | along every sequential run both tables are their last-writer-wins maps, one row a key, every resource allowed and a fixed point |
| `PolicyRaces.StepKeepsOneRowIff` | src/project/services/project.service.ts:1123-1145 | one event of an interleaved run keeps one row per key if and only if it is not a stale insert |
| `PolicyRaces.RunKeepsOneRowIff` | src/project/services/project.service.ts:1123-1145 | an interleaved run has one row per key all the time if and only if it has no stale insert |
| `PolicyRaces.RacingWritersDuplicateIff` | src/project/services/project.service.ts:1123-1145 | two racing project-wide writes of a key can leave two rows if and only if the resource is allowed, the role exists and there is no row yet |
| `ProjectRoles.StepKeepsOwnRolesIff` | src/project/services/project.service.ts:880-891 | one event keeps every member's project role in the member's project if and only if it is not a successful write of another project's role |
| `ProjectRoles.RunKeepsOwnRolesIff` | src/project/services/project.service.ts:880-891 | so does a run, all the time, if and only if it has no such write |
| `ProjectRoles.ForeignRoleReached` | src/project/services/project.service.ts:880-891 | ordinary requests reach a store in which a member holds another project's role |
| `PolicyRuns.EveryInterleavingRefines` | src/project/services/project.service.ts:981-1017 | in every interleaving the policy table is the last-writer-wins map of the policy writes |
| `Guard.GuardRefinesMap` | src/auth/guards/project-permission.guard.ts:116-194 | with project-wide permissions the guard allows all the map allows, agrees with it whenever a row for the resource exists, and differs exactly in the stated default case |
| `GuardExact.GuardCoversMapIff` | src/auth/guards/project-permission.guard.ts:116-194 | the guard lets through whatever the map allows, in every row order, if and only if no order makes the map allow it or every order makes the guard allow it, both read off the rows |
| `GuardExact.ActivationCoversMapIff` | src/auth/guards/project-permission.guard.ts:26-194 | the same of the whole guard call for the member of the project the request is about |
| `GuardExact.ScopedRowsBreakRefinement` | src/auth/guards/project-permission.guard.ts:116-194 | with a scoped permission ordinary requests reach a store in which the guard denies what the map allows |
| `GuardMirror.MapCoversGuardIff` | src/auth/guards/project-permission.guard.ts:116-194 | the map allows whatever the guard lets through, in every row order, if and only if no order makes the guard allow it or every order makes the map allow it |
| `GuardMirror.GuardIsWiderSomewhere` | src/auth/guards/project-permission.guard.ts:116-194 | ordinary requests reach a store in which the guard allows what the map denies, through a row of another department |
| `Guard.DefaultsAgree` | src/auth/guards/project-permission.guard.ts:17 | the guard's default view resources are the service's defaults and the two field resources |
| `Guard.LetThroughIff` | src/auth/guards/project-permission.guard.ts:60-194 | who is let through is, exactly, a member admitted by its own rows of the project that owns the addressed row: the project named; else the field's; else the work order's; else, for an id, the department's, the task's, or that of the subtask's task; else the task's; all others are refused |
| `Guard.DecideMeaning` | src/auth/guards/project-permission.guard.ts:139-194 | a member is admitted exactly when the first policy of its department role for the resource, or without one the first permission of its project role, sets the flag of the action, within the department for TASK and SUBTASK; or, without any row, for viewing a default |
| `Guard.BearerToken` | src/auth/guards/project-permission.guard.ts:31-45 | the token verified is the one between `Bearer ` and the next space |
| `Guard.CanActivate` | src/auth/guards/project-permission.guard.ts:26-194 | the checks in the order of the code let through, record and refuse as the outcome says whose meaning `Guard.LetThroughIff` gives argument by argument |
| `TaskSchema.ParseJsonLike` | src/project/services/project.service.ts:337-350 | the loop with its early returns decodes exactly twice |
| `TaskSchema.ReadsThroughEncodings` | src/project/services/project.service.ts:337-350 | a value stored as it is, encoded once or encoded twice is read as that value; blank text as nothing, other text as itself |
| `TaskSchema.ResourceMeaning` | src/project/services/project.service.ts:372-381 | a schema names the resource by the first of its three fields that is there, in any spelling |
| `TaskSchema.TypeMeaning` | src/project/services/project.service.ts:383-390 | otherwise a type of the form `resource:name` names it, and any other leaves TASK |
| `TaskSchema.StoredSchemaMeaning` | src/project/services/project.service.ts:1255-1265 | the stored schema is the supplied object with the viewer as creator and every other field kept, or just that; without a viewer what was supplied |
| `TaskSchema.StampSurvives` | src/project/services/project.service.ts:372-396 | for every schema text and type the resource read back from the stored task is the one checked at creation, and the stored creator is the viewer |
| `Tasks.CreationStamps` | src/project/services/project.service.ts:1225-1283 | a created task is new, not done, guarded by the checked resource and stamped with its viewer |
| `Tasks.OneCall` | src/project/services/project.service.ts:1285-1345 | what any single call may do to an existing task's schema, status, assignee and other columns, and by whom |
| `Tasks.TaskLife` | src/project/services/project.service.ts:1225-1372 | over every later run resource and creator's number stay fixed; done needs an edit by a privileged viewer or one with that number; without such an edit the assignee is the first one, or nobody after that user was deleted |
| `TaskGates.TaskAppearsIff` | src/project/services/project.service.ts:1225-1283 | a task appears in a call exactly when the call creates it with the next number, its references exist, and the viewer is unchecked or a member whose entry for the resource, its own or else TASK, has canCreate; so reads the entry of the stored task |
| `TaskGates.CreateMeaning` | src/project/services/project.service.ts:1225-1283 | creating is refused exactly when that gate is closed; otherwise one row with the named columns and the stated defaults is added and nothing else |
| `TaskGates.TaskDisappearsIff` | src/project/services/project.service.ts:1347-1372 | a task disappears in a call exactly when an unchecked viewer, or a member whose deciding entry has canDelete, removes it, or its project or that project's administrator is removed |
| `TaskGates.RemoveMeaning` | src/project/services/project.service.ts:1347-1372 | such a removal succeeds exactly for those viewers and takes the task and its subtasks and nothing else |
| `TaskGates.EditMeaning` | src/project/services/project.service.ts:1285-1345 | an edit is refused exactly when the viewer may not, by canEdit of the deciding entry, assignment and creator's number; it writes the columns it names as given and nothing else |
| `TaskGates.OtherCallsLeaveTask` | src/project/services/project.service.ts:1225-1410 | any call but its own edit leaves a task as it is, but for references to departments and assignees that are gone |
| `TaskGates.ListMeaning` | src/project/services/project.service.ts:1170-1223 | with and without a department asked for, the list shows exactly the tasks of the named scope whose deciding entry has canView; all to unchecked callers, none to strangers |
| `TaskGates.ShownMeaning` | src/project/services/project.service.ts:545-552 | inside a project a member is shown exactly the tasks of no department, of its own, or assigned to it, whose deciding entry has canView |
| `TaskGates.SubTaskMeaning` | src/project/services/project.service.ts:1374-1387 | a subtask is added exactly to an existing task, with an existing assignee or none |
| `TaskGates.SubTaskEditMeaning` | src/project/services/project.service.ts:1389-1404 | an edit of a subtask changes its assignee to the one named or to nobody, and nothing else |
| `TaskGates.SubTaskRemovalMeaning` | src/project/services/project.service.ts:1406-1410 | the removal of a subtask removes it and nothing else |
| `TaskRaces.TaskLifeInterleaved` | src/project/services/project.service.ts:1225-1345 | the same with reads, checks and column writes of task calls interleaved with each other and with requests: resource and creator's number fixed, done only by a written edit of a trusted viewer, and without one the assignee is the first one or nobody |
| `TaskRaces.UninterruptedIsOneCall` | src/project/services/project.service.ts:1285-1345 | with nothing in between, reading, checking and writing is the edit handled in one go |
| `TaskRaces.OneWriteIsOneCall` | src/project/services/project.service.ts:1225-1372 | and the one write of a successful creation or removal is the call |
| `TaskAccounts.StrangerTrustedIff` | src/project/services/project.service.ts:392-396 | at any later moment of any run a non-administrator other than the creating account is trusted with a task if and only if an administrator with that number created it |
| `TaskAccounts.StrangerFinishesSomewhere` | src/project/services/project.service.ts:1285-1345 | ordinary requests and calls reach a store in which such a user declares the task done |
| `Tasks.SameTasksShown` | src/project/services/project.service.ts:545-552 | a member with a department sees the same tasks in the project as in the task list; without one, exactly those less the readable ones of departments assigned to others |
| `ProjectService.CallKeepsSound` | src/project/services/project.service.ts:719-1372 | every handled call, about access or tasks, by anyone, keeps the whole store sound |
| `ProjectService.RunKeepsSound` | src/project/services/project.service.ts:719-1372 | so does every run of such calls |
| `ProjectService.ProjectService.AssignUser` | src/project/services/project.service.ts:719-735 | updates the tables as the handled request does, error cases included, and keeps them sound; the new row has three empty columns and nothing else changes |
| `ProjectService.ProjectService.AssignUserToDepartment` | src/project/services/project.service.ts:1019-1038 | the same for moving a member: the department given, no department role, the project role kept, nothing else changed |
| `ProjectService.ProjectService.RemoveUserFromDepartment` | src/project/services/project.service.ts:1040-1051 | the same for leaving: department and department role cleared, the project role kept, nothing else changed |
| `ProjectService.ProjectService.SetUserDepartmentRole` | src/project/services/project.service.ts:1053-1084 | the same for giving a department role: the role and its department, the project role kept, nothing else changed |
| `ProjectService.ProjectService.UnsetUserDepartmentRole` | src/project/services/project.service.ts:1086-1097 | the same for clearing the department role only |
| `ProjectService.ProjectService.CreateDepartment` | src/project/services/project.service.ts:912-915 | the same for a new department |
| `ProjectService.ProjectService.RemoveDepartment` | src/project/services/project.service.ts:922-926 | the same for deleting a department with its cascades |
| `ProjectService.ProjectService.UpdateDepartmentRole` | src/project/services/project.service.ts:945-965 | the same for renaming a department role |
| `ProjectService.ProjectService.RemoveDepartmentRole` | src/project/services/project.service.ts:967-971 | the same for deleting a department role with its cascades |
| `ProjectService.ProjectService.SetDepartmentRolePolicy` | src/project/services/project.service.ts:981-1011 | the same for writing a policy |
| `ProjectService.ProjectService.SetPermission` | src/project/services/project.service.ts:1105-1160 | the same for writing a permission |
| `ProjectService.ProjectService.RemovePermission` | src/project/services/project.service.ts:1162-1166 | the same for deleting a permission |
| `ProjectService.ProjectService.GetProjectUserContext` | src/project/services/project.service.ts:415-435 | a member's row and the access map of that row, nothing for others |
| `ProjectService.ProjectService.CreateTask` | src/project/services/project.service.ts:1225-1283 | updates the tables as the task function of the run theorems does; refuses exactly when the gate on canCreate is closed and succeeds exactly when the references exist as well |
| `ProjectService.ProjectService.CheckUpdate` | src/project/services/project.service.ts:1304-1330 | the checks in the order of the code accept exactly the edits the run theorems speak of |
| `ProjectService.ProjectService.UpdateTask` | src/project/services/project.service.ts:1285-1345 | updates the task as the task function of the run theorems does; refuses exactly the viewers who may not change it |
| `ProjectService.ProjectService.RemoveTask` | src/project/services/project.service.ts:1347-1372 | deletes the task and its subtasks exactly for the viewers who may make it disappear |
| `Tokens.TokensFormChains` | src/auth/services/auth.service.ts:39-138 | over every run a row has at most one successor, a session at most one live row, and a refresh accepts a token if and only if it is the unexpired live end of its session |
| `Tokens.LoginMeaning` | src/auth/services/auth.service.ts:39-79 | after a login or signup both tokens name the account that signed in, by number and role, share an unused identifier and differ in kind; the refresh token is stored for that account; the access token passes the strategy exactly until its lifetime is over unless blacklisted, and never refreshes |
| `Tokens.RefreshMeaning` | src/auth/services/auth.service.ts:95-138 | a refresh succeeds exactly for a redeemable token whose account is there; both new tokens name the account of the redeemed row under an unused identifier, that row is revoked, and nothing else changes |
| `Tokens.TokensNameWhoSignedIn` | src/auth/services/auth.service.ts:39-138 | along every run each stored token names, by number and role, an account that signed in; rotation never crosses accounts |
| `Tokens.RedeemableUntil` | src/auth/services/auth.service.ts:59-70 | a refresh token just handed out is accepted exactly until its signature or its row expires; with equal lifetimes, exactly until the signature does |
| `Expiry.ParseExpiryRoundTrip` | src/auth/services/auth.service.ts:81-93 | a number in decimal, leading zeros or not, is read as that many seconds, minutes, hours or days, by its unit; any other text as 900 seconds |
| `Tokens.NextKeepsChains` | src/auth/services/auth.service.ts:39-169 | every step keeps the rotation chains |
| `Tokens.LogoutMeaning` | src/auth/services/auth.service.ts:140-169 | what a logout leaves: nothing changed, or the identifier blacklisted for the whole seconds left and the rows under the number revoked now, every other row and entry as it was |
| `Tokens.LogoutRevokesIff` | src/auth/services/auth.service.ts:140-169 | a logout leaves rows under other account numbers alone, and all rows under the bearer's number end up revoked exactly when its update is reached or nothing was left to revoke |
| `Tokens.LogoutTouchesIff` | src/auth/services/auth.service.ts:155-160 | a live row of another account is revoked if and only if the logout takes effect and the row carries the bearer's number |
| `Tokens.LogoutCrossesAccounts` | src/auth/services/auth.service.ts:155-160 | a run in which a user's logout revokes an administrator's row |
| `Tokens.LogoutEndsAllSessions` | src/auth/services/auth.service.ts:155-160 | along every later run a refresh token accepted for the bearer's account number goes back to a login or signup made after the logout |
| `Tokens.BlacklistWindow` | src/auth/strategies/jwt.strategy.ts:26-34 | a logged-out access token passes again exactly in the last (1000 E - t) mod 1000 milliseconds before its expiry, and along no later run outside that window |
| `TokenRaces.RevokedStaysRefused` | src/auth/services/auth.service.ts:107-120 | however statements interleave, no lookup of a row is accepted after a revocation was written to it |
| `TokenRaces.UninterruptedIsOneStep` | src/auth/services/auth.service.ts:95-138 | with nothing in between, the statements of a refresh are the refresh handled in one step |
| `TokenRaces.OneWriteIsOneStep` | src/auth/services/auth.service.ts:39-169 | and so are the write of a login and of a logout that takes effect |
| `TokenRaces.SuccessorsWereSeenInTime` | src/auth/services/auth.service.ts:95-138 | however statements interleave, every successor stems from a lookup made before its predecessor was first revoked |
| `TokenRaces.LogoutSparesOnlyStraddlers` | src/auth/services/auth.service.ts:155-160 | an interleaved logout ends every session under its number but for refreshes that had done their lookup before it |
| `TokenForks.StepExclusiveIff` | src/auth/services/auth.service.ts:107-128 | a statement keeps every row at one successor or refresh in flight at most, if and only if it is not a lookup accepted while another refresh of the row is in flight |
| `TokenForks.RunExclusiveIff` | src/auth/services/auth.service.ts:107-128 | so does an interleaved run, all the time, if and only if no lookup overlaps |
| `TokenForks.OneSuccessorWithoutOverlap` | src/auth/services/auth.service.ts:95-138 | an interleaved run without overlapping lookups gives every row at most one successor |
| `TokenForks.CanForkIff` | src/auth/services/auth.service.ts:107-128 | what is under way can give some row two successors if and only if some row has two among its successors and refreshes in flight |
| `TokenForks.RacingRefreshesFork` | src/auth/services/auth.service.ts:107-128 | from any point of any run, two unused requests can turn any accepted token into a row with two live successors |
| `TokenForks.LogoutEndsAllIff` | src/auth/services/auth.service.ts:155-160 | an interleaved logout ends every session under its number, whatever comes later, if and only if no refresh of one of those rows is in flight |
| `TokenForks.LogoutRacesRefresh` | src/auth/services/auth.service.ts:107-160 | any refresh in flight on a row under the number can leave a live row behind that follows the old one |
| `AuthService.AuthService.GenerateTokens` | src/auth/services/auth.service.ts:39-79 | appends one live row for a fresh pair that names the account, and keeps the chains |
| `AuthService.AuthService.SignIn` | src/auth/services/auth.service.ts:211-231 | the token part of login and signup is the login step of the run theorems, with a pair that names the account |
| `AuthService.AuthService.Login` | src/auth/services/auth.service.ts:211-245 | the account that matched is signed in under the role asked for, a user when none is; any other role, or no match, is refused and changes nothing |
| `AuthService.AuthService.Signup` | src/auth/services/auth.service.ts:171-191 | a new administrator is signed in as one; a taken e-mail changes nothing |
| `AuthService.AuthService.RefreshTokens` | src/auth/services/auth.service.ts:95-138 | the checks in the order of the code give the refresh step of the run theorems; a new pair names the account of the redeemed row, which is revoked |
| `AuthService.AuthService.Logout` | src/auth/services/auth.service.ts:140-169 | the call behind its guard is the logout step of the run theorems |
| `ResetTokens.TokensAreOneShot` | src/auth/services/auth.service.ts:247-298 | over every mixed run of both services an email has at most one unused token, only its latest token is accepted, no token changes two passwords, and none does so later than an hour after issue |
| `ResetTokens.RequestMeaning` | src/auth/services/auth.service.ts:247-272 | a request issues one token, valid an hour, clears exactly what its service clears of that email, and touches no password and no other email |
| `ResetTokens.RedeemMeaning` | src/auth/services/auth.service.ts:274-298 | a token is redeemed exactly when its row is there, unused and not expired and its email has an account; that account's password becomes the one supplied and nothing else changes |
| `ResetTokens.ServicesAgree` | src/common/services/password-reset.service.ts:21-113 | runs of the same calls, each handled by either service, end with the same passwords and usable tokens and accept the same tokens |
| `ResetRaces.StepExclusiveIff` | src/auth/services/auth.service.ts:274-298 | a statement keeps every token at one password change, made or under way, if and only if it is not a lookup that overlaps with another call on the token |
| `ResetRaces.RunExclusiveIff` | src/auth/services/auth.service.ts:274-298 | so does an interleaved run, all the time, if and only if no lookup overlaps |
| `ResetRaces.RequestIsOneStep` | src/common/services/password-reset.service.ts:21-68 | with nothing in between, the statements of a request of either service are the request handled in one step |
| `ResetRaces.RedeemIsOneStep` | src/auth/services/auth.service.ts:274-298 | and so are those of redeeming a token |
| `ResetRaces.RacingRedeemsDouble` | src/auth/services/auth.service.ts:274-298 | from any point of any run two unused requests can make a usable token change its password twice |
| `ResetRaces.RunKeepsOneUnusedIff` | src/common/services/password-reset.service.ts:21-68 | an interleaved run leaves every email with one unused token at most, all the time, if and only if none is issued while there is one |
| `ResetTokens.Database.ForgotPassword` | src/auth/services/auth.service.ts:247-272 | clears all tokens of the email and issues one; nothing for an unknown email |
| `ResetTokens.Database.RequestReset` | src/common/services/password-reset.service.ts:21-68 | the two deletes clear the expired and the unused tokens of the email, then one is issued |
| `ResetTokens.Database.ResetPassword` | src/common/services/password-reset.service.ts:70-113 | changes the password and uses the token up, or refuses with the service's own exceptions |
| `ChangeRequests.RequestsAreDecidedOnce` | src/request/services/request.service.ts:180-294 | over every run a request is decided at most once, by its own administrator; at most one user write of the right shape is made for it, and it is approved if and only if that write was made |
| `ChangeRequests.DecidedIsFinal` | src/request/services/request.service.ts:180-294 | a decided request never changes again |
| `ChangeRequests.UsersAreReplayedWrites` | src/request/services/request.service.ts:37-294 | requests change users only by those writes: replaying them gives the users table |
| `ChangeRequests.CreationMeaning` | src/request/services/request.service.ts:37-89 | a request is filed exactly for a user with an administrator who, to change a password, knows the current one; it holds the current and requested value of its column, and none for a password |
| `ChangeRequests.ApprovalMeaning` | src/request/services/request.service.ts:229-268 | an approval succeeds exactly for its own administrator's pending request about a name or a free e-mail with a value; it writes that value to that column and no other |
| `ChangeRequests.GenerationMeaning` | src/request/services/request.service.ts:180-227 | a generated password becomes the user's password exactly for such a request about a password; no other column changes |
| `ChangeRequests.RejectionMeaning` | src/request/services/request.service.ts:270-294 | a rejection changes the status of its own administrator's pending request and nothing else |
| `ChangeRequests.AccountsMeaning` | src/prisma/schema.prisma:84-93 | requests go exactly with their user or their administrator |
| `ChangeRequests.RequestService.CreateRequest` | src/request/services/request.service.ts:37-89 | files a pending request with the user's administrator, never storing a password, or refuses |
| `ChangeRequests.RequestService.ApproveRequest` | src/request/services/request.service.ts:229-268 | checks, one user write, then the status; a failing write leaves the request pending |
| `ChangeRequests.RequestService.RejectRequest` | src/request/services/request.service.ts:270-294 | checks, then the status and nothing else |
| `ChangeRequests.RequestService.ApplyGeneratedPassword` | src/request/services/request.service.ts:180-227 | checks, one password write, then the status |
| `Cookies.ExtractFindsFirst` | src/auth/auth.resolver.ts:26-30 | from every rendered cookie-string the value of the first non-empty cookie named exactly refreshToken is read, and nothing when there is none |
| `Cookies.ExtractIsLeftmost` | src/auth/auth.resolver.ts:26-30 | for every header text, well-formed or not, the value of the leftmost match of the pattern is read, and nothing when there is none |
| `Cookies.SpaceRunIsForced` | src/auth/auth.resolver.ts:28 | backtracking in the white-space run never yields another match |
| `WorkOrderNames.TrimCollapseIsJoin` | src/project/services/project.service.ts:761 | collapsing white space and trimming is joining the words with single spaces |
| `WorkOrderNames.StripKeeps` | src/project/services/project.service.ts:761 | stripping keeps exactly letters, digits, underscores, hyphens and white space, in their order |
| `WorkOrderNames.SafeNameMeaning` | src/project/services/project.service.ts:760-761 | the sanitised name is the joined words of the stripped name or the fallback, is always in the normal form, leaves exactly the normal forms alone, and is idempotent |

## Left out

- NestJS modules, controllers, data-transfer objects, GraphQL models, logging and health checks: wiring.
- File storage, presigned URLs, e-mail delivery, Redis and Postgres clients: external I/O; only tables and a timed cache remain.
- bcrypt, JWT signing, SHA-256, uuid and `JSON.parse` internals: libraries, represented as described above.
- GuardRefinesMap: speaks, like the other results about the guard, of resource names without surrounding white space, because the guard upper-cases a name and the map trims it too; every annotation in the source is such a name.
- LogoutEndsAllSessions: is about a logout whose cache write did not fail; LogoutRevokesIff covers the others.
- Exception messages: only the class of an exception is kept.
- Service methods not written as class methods (creating and renaming projects, users, roles and departments, unassigning, and the remaining removals): they are `Requests.Request` cases and part of every run theorem, but only as functions on values.
- Row creation dates, project fields and work-order rows: nothing decides access from them; the guard's lookups through them are the parameter `Links`.
- Uniqueness of user and administrator e-mails outside change requests, and Prisma's treatment of a JSON null: no result here depends on them.
- The columns of a subtask other than its task and its assignee: nothing here depends on them.
- Administrators' own rows: a project carries its administrator, whose removal takes the projects along, but that removing an unknown administrator is refused is not modelled.
- `getUserPermission`, the rest of the administrator service, the plain user service and the list queries: single statements or single branches.
- Interleavings of change-request calls: those theorems are about calls handled one at a time.
- Unicode case mapping and locale collation.
