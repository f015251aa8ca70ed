/** Requests handled one after the other: the permission and policy tables are last-writer-wins maps. */
module PolicyTables {
  import opened Wrappers
  import opened Text
  import opened Catalog
  import opened Tables
  import opened Statements
  import opened Requests
  import opened KeyedTables

  function Rank(l: Local): nat {
    match l
    case Start => 3
    case Checked => 2
    case RoleRead(_) => 1
    case PermissionRead(_) => 1
    case Unrivalled => 0
  }

  lemma AdvanceRanks(c: Catalog, t: Tables, req: Request, l: Local)
    ensures Advance(c, t, req, l).1.More? ==> Advance(c, t, req, l).0 == t && Rank(Advance(c, t, req, l).1.local) < Rank(l)
  {
    hide DeleteRows, Trim, NormalizePolicyResource, BuildPolicyFlags, MemberRefers, FindPermission, FindPolicy;
  }

  /** The rest of a request, with no other statement in between. */
  ghost function Finish(c: Catalog, t: Tables, req: Request, l: Local): (Tables, Result<Unit>)
    decreases Rank(l)
  {
    AdvanceRanks(c, t, req, l);
    var (t', progress) := Advance(c, t, req, l);
    match progress
    case More(l') => Finish(c, t', req, l')
    case Over(r) => (t', r)
  }

  /** A request handled as one atomic step. */
  ghost function Handle(c: Catalog, t: Tables, req: Request): (Tables, Result<Unit>) {
    Finish(c, t, req, Start)
  }

  /** One statement of a handled request. */
  lemma Unfold(c: Catalog, t: Tables, req: Request, l: Local)
    ensures var (t', progress) := Advance(c, t, req, l);
            Finish(c, t, req, l) == match progress case More(l') => Finish(c, t', req, l') case Over(r) => (t', r)
  {
    AdvanceRanks(c, t, req, l);
    hide Advance;
  }

  ghost function HandleAll(c: Catalog, t: Tables, reqs: seq<Request>): Tables {
    if reqs == [] then t
    else Handle(c, HandleAll(c, t, reqs[..|reqs| - 1]), reqs[|reqs| - 1]).0
  }

  // ── Permissions as a map from (project role, department or null, resource) ──

  type Key = (nat, Option<nat>, string)

  type PermissionMap = map<Key, Flags>

  function Entries(t: Tables): map<nat, Entry<Key>> {
    map p | p in t.permissions.rows :: Entry(PermissionKey(t.permissions.rows[p]), t.permissions.rows[p].flags)
  }

  ghost predicate Represents(t: Tables, m: PermissionMap) {
    KeyedTables.Represents(Entries(t), m)
  }

  ghost predicate OneRowPerKey(t: Tables) {
    forall p, q | p in t.permissions.rows && q in t.permissions.rows
                  && PermissionKey(t.permissions.rows[p]) == PermissionKey(t.permissions.rows[q]) :: p == q
  }

  lemma RepresentedOnce(t: Tables, m: PermissionMap)
    requires Represents(t, m)
    ensures OneRowPerKey(t)
  {
    var e := Entries(t);
    forall p, q | p in t.permissions.rows && q in t.permissions.rows
                  && PermissionKey(t.permissions.rows[p]) == PermissionKey(t.permissions.rows[q]) ensures p == q {
      assert e[p].key == e[q].key;
    }
  }

  /** A key lives as long as its project role and its department. */
  ghost function LivingKeys(t: Tables): iset<Key> {
    iset k: Key | k.0 in t.projectRoles.rows && Refers(k.1, t.departments)
  }

  ghost function Living(t: Tables, m: PermissionMap): PermissionMap {
    Restrict(m, LivingKeys(t))
  }

  /** What a request that succeeds writes to the map. A removal names a row, so it needs the key that row had. */
  function Written(c: Catalog, t: Tables, req: Request, m: PermissionMap): PermissionMap {
    match req
    case SetPermission(r, resource, scope, flags) =>
      var key := NormalizePolicyResource(c, resource);
      m[(r, scope, key) := BuildPolicyFlags(c, key, flags)]
    case RemovePermission(p) =>
      if p in t.permissions.rows then m - {PermissionKey(t.permissions.rows[p])} else m
    case _ => m
  }

  /** The last writer wins: what a handled request does to the map, given which project roles and departments it leaves. */
  ghost function LastWriterWins(c: Catalog, t: Tables, t': Tables, req: Request, done: bool,
        m: PermissionMap): PermissionMap {
    Living(t', if done then Written(c, t, req, m) else m)
  }

  /** Which permission rows a delete leaves. */
  lemma PermissionsAfterDelete(t: Tables, x: Dead)
    requires ForeignKeys(t)
    ensures var t' := DeleteRows(t, x);
            forall p :: p in t'.permissions.rows <==>
              p in t.permissions.rows && p !in x.permissions
              && t.permissions.rows[p].projectRoleId in t'.projectRoles.rows
                  && Refers(t.permissions.rows[p].departmentId, t'.departments)
    ensures forall p | p in DeleteRows(t, x).permissions.rows ::
              DeleteRows(t, x).permissions.rows[p] == t.permissions.rows[p]
  {
  }

  lemma DeleteRefines(t: Tables, x: Dead, m: PermissionMap)
    requires ForeignKeys(t) && Represents(t, m)
    ensures Represents(DeleteRows(t, x), Living(DeleteRows(t, x), m - KeysOf(Entries(t), x.permissions)))
  {
    PermissionsAfterDelete(t, x);
    hide DeleteRows, ForeignKeys, KeyedTables.Represents, Restrict, KeysOf;
    DropRefines(Entries(t), Entries(DeleteRows(t, x)), x.permissions, LivingKeys(DeleteRows(t, x)), m);
  }

  /** Nothing the map speaks of has changed. */
  lemma SamePermissionsRefine(t: Tables, t': Tables, m: PermissionMap)
    requires ForeignKeys(t) && Represents(t, m) && t'.permissions == t.permissions
    requires t.projectRoles.rows.Keys <= t'.projectRoles.rows.Keys && t.departments.rows.Keys <= t'.departments.rows.Keys
    ensures Living(t', m) == m && Represents(t', m)
  {
    hide KeyedTables.Represents, Restrict;
    assert Entries(t') == Entries(t);
    assert forall p | p in t.permissions.rows :: PermissionKey(t.permissions.rows[p]) in LivingKeys(t');
    AllLive(Entries(t'), LivingKeys(t'), m);
  }

  lemma WrittenByRoot(c: Catalog, t: Tables, req: Request, m: PermissionMap)
    requires !req.SetPermission?
    ensures RootOf(t, req).None? ==> Written(c, t, req, m) == m
    ensures RootOf(t, req).Some? ==> Written(c, t, req, m) == m - KeysOf(Entries(t), RootOf(t, req).value.permissions)
  {
    hide ProjectsOf;
    if req.RemovePermission? && req.permissionId in t.permissions.rows {
      assert KeysOf(Entries(t), {req.permissionId}) == {PermissionKey(t.permissions.rows[req.permissionId])};
    } else if RootOf(t, req).Some? {
      assert KeysOf(Entries(t), RootOf(t, req).value.permissions) == {};
    }
  }

  lemma StatementRefines(c: Catalog, t: Tables, req: Request, l: Local, m: PermissionMap)
    requires Inv(c, t) && Represents(t, m) && !req.SetPermission?
    ensures var (t', progress) := Advance(c, t, req, l);
            Represents(t', LastWriterWins(c, t, t', req, progress == Over(Ok(Done)), m))
  {
    StatementShape(c, t, req, l);
    SoundKeys(c, t);
    hide Advance, DeleteRows, Inv, Represents, ForeignKeys, Written, RootOf, Living;
    var (t', progress) := Advance(c, t, req, l);
    if progress == Over(Ok(Done)) {
      WrittenByRoot(c, t, req, m);
      if RootOf(t, req).Some? { DeleteRefines(t, RootOf(t, req).value, m); } else { SamePermissionsRefine(t, t', m); }
    } else {
      SamePermissionsRefine(t, t', m);
    }
  }

  lemma {:induction false} FinishRefines(c: Catalog, t: Tables, req: Request, l: Local, m: PermissionMap)
    requires Inv(c, t) && Represents(t, m) && !req.SetPermission?
    ensures var (t', r) := Finish(c, t, req, l);
            Represents(t', LastWriterWins(c, t, t', req, r.Ok?, m))
    decreases Rank(l)
  {
    AdvanceRanks(c, t, req, l);
    StatementRefines(c, t, req, l, m);
    var progress := Advance(c, t, req, l).1;
    hide Advance, LastWriterWins, Represents;
    if progress.More? { FinishRefines(c, t, req, progress.local, m); }
  }

  /** `setPermission` in one go is an insert-or-overwrite, for null and for real departments alike. */
  lemma SetPermissionIsUpsert(c: Catalog, t: Tables, req: Request)
    requires req.SetPermission?
    ensures var key := NormalizePolicyResource(c, req.resource);
            var written := UpsertPermission(t, Permission(req.roleId, req.scope, key, BuildPolicyFlags(c, key, req.flags)));
            Handle(c, t, req) ==
            if !c.Allowed(key) then (t, Err(Conflict))
            else if written.Ok? then (written.value, Ok(Done)) else (t, Err(written.failure))
  {
    hide NormalizePolicyResource, BuildPolicyFlags;
  }

  lemma SetPolicyIsUpsert(c: Catalog, t: Tables, req: Request)
    requires req.SetDepartmentRolePolicy?
    ensures var key := NormalizePolicyResource(c, req.resource);
            var written := UpsertPolicy(t, req.departmentRoleId, key, BuildPolicyFlags(c, key, req.flags));
            Handle(c, t, req) ==
            if req.departmentRoleId !in t.departmentRoles.rows then (t, Err(NotFound))
            else if key == "" || !c.Allowed(key) then (t, Err(Conflict))
            else if written.Ok? then (written.value, Ok(Done)) else (t, Err(written.failure))
  {
    Unfold(c, t, req, Start);
    Unfold(c, t, req, Checked);
    hide Finish, UpsertPolicy, NormalizePolicyResource, BuildPolicyFlags;
  }

  /** Whichever row a lookup by a unique key finds is the one the upsert updates. */
  lemma UpsertFindsPolicy(t: Tables, row: Policy, found: Option<nat>)
    requires forall p, q | p in t.policies.rows && q in t.policies.rows
               && PolicyKey(t.policies.rows[p]) == PolicyKey(t.policies.rows[q]) :: p == q
    requires found.Some? ==> found.value in t.policies.rows && PolicyKey(t.policies.rows[found.value]) == PolicyKey(row)
    requires found.None? ==> forall p | p in t.policies.rows :: PolicyKey(t.policies.rows[p]) != PolicyKey(row)
    requires row.departmentRoleId in t.departmentRoles.rows
    ensures UpsertPolicy(t, row.departmentRoleId, row.resource, row.flags) ==
            Ok(t.(policies := if found.Some?
                then t.policies.Update(found.value, t.policies.rows[found.value].(flags := row.flags))
                              else t.policies.Insert(row)))
  {
  }

  lemma UpsertFindsPermission(t: Tables, row: Permission, found: Option<nat>)
    requires OneRowPerKey(t)
    requires found.Some? ==>
               found.value in t.permissions.rows && PermissionKey(t.permissions.rows[found.value]) == PermissionKey(row)
    requires found.None? ==> forall p | p in t.permissions.rows :: PermissionKey(t.permissions.rows[p]) != PermissionKey(row)
    ensures UpsertPermission(t, row) ==
            if found.Some? then
              Ok(t.(permissions := t.permissions.Update(found.value, t.permissions.rows[found.value].(flags := row.flags))))
            else if row.projectRoleId !in t.projectRoles.rows || !Refers(row.departmentId, t.departments) then Err(Dangling)
            else Ok(t.(permissions := t.permissions.Insert(row)))
  {
  }

  lemma UpsertRefines(t: Tables, row: Permission, m: PermissionMap)
    requires ForeignKeys(t) && t.permissions.Valid() && Represents(t, m) && UpsertPermission(t, row).Ok?
    ensures var t', m' := UpsertPermission(t, row).value, m[PermissionKey(row) := row.flags];
            Living(t', m') == m' && Represents(t', m')
  {
    var found := FindPermission(t, PermissionKey(row));
    var p := if found.Some? then found.value else t.permissions.next;
    var t' := UpsertPermission(t, row).value;
    RepresentedOnce(t, m);
    UpsertFindsPermission(t, row, found);
    PermissionPlaces(t);
    hide UpsertPermission, KeyedTables.Represents, Restrict, ForeignKeys;
    var e := Entry(PermissionKey(row), row.flags);
    assert Entries(t') == Entries(t)[p := e];
    PutRefines(Entries(t), p, e, m);
    EntriesLive(t, t', p, e);
    AllLive(Entries(t'), LivingKeys(t'), m[e.key := e.flags]);
  }

  lemma PermissionPlaces(t: Tables)
    requires ForeignKeys(t)
    ensures PermissionKeys(t)
  {
  }

  lemma EntriesLive(t: Tables, t': Tables, p: nat, e: Entry<Key>)
    requires PermissionKeys(t) && t'.projectRoles == t.projectRoles && t'.departments == t.departments
    requires e.key.0 in t.projectRoles.rows && Refers(e.key.1, t.departments)
    requires Entries(t') == Entries(t)[p := e]
    ensures forall q | q in Entries(t') :: Entries(t')[q].key in LivingKeys(t')
  {
    forall q | q in Entries(t') ensures Entries(t')[q].key in LivingKeys(t') {
      if q != p { assert Entries(t')[q] == Entries(t)[q]; }
    }
  }

  lemma SetPermissionRefines(c: Catalog, t: Tables, req: Request, m: PermissionMap)
    requires Inv(c, t) && Represents(t, m) && req.SetPermission?
    ensures var (t', r) := Handle(c, t, req);
            Represents(t', LastWriterWins(c, t, t', req, r.Ok?, m))
  {
    SetPermissionIsUpsert(c, t, req);
    SoundKeys(c, t);
    hide Inv, Represents, Handle, UpsertPermission;
    SamePermissionsRefine(t, t, m);
    var key := NormalizePolicyResource(c, req.resource);
    var row := Permission(req.roleId, req.scope, key, BuildPolicyFlags(c, key, req.flags));
    if c.Allowed(key) && UpsertPermission(t, row).Ok? { UpsertRefines(t, row, m); }
  }

  /** One handled request refines one step of the last-writer-wins map. */
  lemma HandleRefines(c: Catalog, t: Tables, req: Request, m: PermissionMap)
    requires Inv(c, t) && Represents(t, m)
    ensures var (t', r) := Handle(c, t, req);
            Represents(t', LastWriterWins(c, t, t', req, r.Ok?, m))
  {
    if req.SetPermission? { SetPermissionRefines(c, t, req, m); } else { FinishRefines(c, t, req, Start, m); }
  }

  /** The map after a whole run. */
  ghost function MapAfter(c: Catalog, reqs: seq<Request>): PermissionMap {
    if reqs == [] then map[]
    else
      var before, last := reqs[..|reqs| - 1], reqs[|reqs| - 1];
      var t := HandleAll(c, EMPTY, before);
      LastWriterWins(c, t, Handle(c, t, last).0, last, Handle(c, t, last).1.Ok?, MapAfter(c, before))
  }

  lemma {:induction false} HandleAllKeepsInv(c: Catalog, reqs: seq<Request>)
    requires c.Valid()
    ensures Inv(c, HandleAll(c, EMPTY, reqs))
  {
    EmptyIsSound(c);
    if reqs != [] {
      HandleAllKeepsInv(c, reqs[..|reqs| - 1]);
      FinishKeepsInv(c, HandleAll(c, EMPTY, reqs[..|reqs| - 1]), reqs[|reqs| - 1], Start);
    }
  }

  lemma {:induction false} FinishKeepsInv(c: Catalog, t: Tables, req: Request, l: Local)
    requires c.Valid() && Inv(c, t) && Remembers(c, t, req, l)
    ensures Inv(c, Finish(c, t, req, l).0)
    decreases Rank(l)
  {
    AdvanceRanks(c, t, req, l);
    AdvanceIsGood(c, t, req, l);
    var progress := Advance(c, t, req, l).1;
    hide Advance, Inv;
    if progress.More? { FinishKeepsInv(c, t, req, progress.local); }
  }

  /** Along every sequential run of any requests, cascading deletes included, the permission table is the
      last-writer-wins map, with one row per key, null departments included, and every stored resource is allowed and
      stands for itself. */
  lemma {:induction false} SequentialRunRefines(c: Catalog, reqs: seq<Request>)
    requires c.Valid()
    ensures var t := HandleAll(c, EMPTY, reqs);
            && Represents(t, MapAfter(c, reqs))
            && (forall p | p in t.permissions.rows :: Storable(c, t.permissions.rows[p].resource))
  {
    HandleAllKeepsInv(c, reqs);
    if reqs != [] {
      var before := reqs[..|reqs| - 1];
      SequentialRunRefines(c, before);
      HandleAllKeepsInv(c, before);
      HandleRefines(c, HandleAll(c, EMPTY, before), reqs[|reqs| - 1], MapAfter(c, before));
    }
  }
}
