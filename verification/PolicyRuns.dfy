/** Department-role policies: their unique index has no nullable column and their write is one upsert, so the table is a
    last-writer-wins map in every interleaving, not only in sequential runs. */
module PolicyRuns {
  import opened Wrappers
  import opened Catalog
  import opened Tables
  import opened Statements
  import opened Requests
  import opened KeyedTables

  type Key = (nat, string)

  type PolicyMap = map<Key, Flags>

  function Entries(t: Tables): map<nat, Entry<Key>> {
    map p | p in t.policies.rows :: Entry(PolicyKey(t.policies.rows[p]), t.policies.rows[p].flags)
  }

  ghost predicate Represents(t: Tables, m: PolicyMap) {
    KeyedTables.Represents(Entries(t), m)
  }

  /** A key lives as long as its department role. */
  ghost function LivingKeys(t: Tables): iset<Key> {
    iset k: Key | k.0 in t.departmentRoles.rows
  }

  ghost function Living(t: Tables, m: PolicyMap): PolicyMap {
    Restrict(m, LivingKeys(t))
  }

  /** What the write of a request, when it happens, does to the map. */
  function Written(c: Catalog, t: Tables, req: Request, m: PolicyMap): PolicyMap {
    match req
    case SetDepartmentRolePolicy(r, resource, flags) =>
      var key := NormalizePolicyResource(c, resource);
      m[(r, key) := BuildPolicyFlags(c, key, flags)]
    case RemoveDepartmentRolePolicy(p) => m - KeysOf(Entries(t), {p})
    case _ => m
  }

  ghost function MapNext(c: Catalog, s: System, e: Event, m: PolicyMap): PolicyMap {
    if !e.Turn? || e.pid !in s.running then m
    else
      var process := s.running[e.pid];
      var (t', progress) := Advance(c, s.tables, process.req, process.local);
      Living(t', if progress == Over(Ok(Done)) then Written(c, s.tables, process.req, m) else m)
  }

  ghost function MapAfter(c: Catalog, s: System, events: seq<Event>, m: PolicyMap): PolicyMap {
    if events == [] then m
    else
      var before := events[..|events| - 1];
      MapNext(c, Run(c, s, before), events[|events| - 1], MapAfter(c, s, before, m))
  }

  lemma PoliciesAfterDelete(t: Tables, x: Dead)
    requires ForeignKeys(t)
    ensures var t' := DeleteRows(t, x);
            forall p :: p in t'.policies.rows <==>
              p in t.policies.rows && p !in x.policies && t.policies.rows[p].departmentRoleId in t'.departmentRoles.rows
    ensures forall p | p in DeleteRows(t, x).policies.rows :: DeleteRows(t, x).policies.rows[p] == t.policies.rows[p]
  {
  }

  lemma DeleteRefines(t: Tables, x: Dead, m: PolicyMap)
    requires ForeignKeys(t) && Represents(t, m)
    ensures Represents(DeleteRows(t, x), Living(DeleteRows(t, x), m - KeysOf(Entries(t), x.policies)))
  {
    PoliciesAfterDelete(t, x);
    hide DeleteRows, ForeignKeys, KeyedTables.Represents, Restrict, KeysOf;
    DropRefines(Entries(t), Entries(DeleteRows(t, x)), x.policies, LivingKeys(DeleteRows(t, x)), m);
  }

  /** Nothing the map speaks of has changed. */
  lemma SamePoliciesRefine(t: Tables, t': Tables, m: PolicyMap)
    requires ForeignKeys(t) && Represents(t, m) && t'.policies == t.policies
    requires t.departmentRoles.rows.Keys <= t'.departmentRoles.rows.Keys
    ensures Living(t', m) == m && Represents(t', m)
  {
    hide KeyedTables.Represents, Restrict;
    assert Entries(t') == Entries(t);
    assert forall p | p in t.policies.rows :: PolicyKey(t.policies.rows[p]) in LivingKeys(t');
    AllLive(Entries(t'), LivingKeys(t'), m);
  }

  /** The table an upsert leaves, up to the identifier counter. */
  lemma UpsertRows(t: Tables, role: nat, resource: string, flags: Flags) returns (p: nat)
    requires ForeignKeys(t) && t.policies.Valid() && UpsertPolicy(t, role, resource, flags).Ok?
    ensures role in t.departmentRoles.rows
              && UpsertPolicy(t, role, resource, flags).value.departmentRoles == t.departmentRoles
    ensures UpsertPolicy(t, role, resource, flags).value.policies.rows == t.policies.rows[p := Policy(role, resource, flags)]
    ensures forall q | q in t.policies.rows && PolicyKey(t.policies.rows[q]) == (role, resource) :: p in t.policies.rows
    ensures p in t.policies.rows ==> PolicyKey(t.policies.rows[p]) == (role, resource)
  {
    var found := FindPolicy(t, (role, resource));
    p := if found.Some? then found.value else t.policies.next;
  }

  lemma UpsertRefines(t: Tables, role: nat, resource: string, flags: Flags, m: PolicyMap)
    requires ForeignKeys(t) && t.policies.Valid() && Represents(t, m) && UpsertPolicy(t, role, resource, flags).Ok?
    ensures var t', m' := UpsertPolicy(t, role, resource, flags).value, m[(role, resource) := flags];
            Living(t', m') == m' && Represents(t', m')
  {
    var p := UpsertRows(t, role, resource, flags);
    var t', e := UpsertPolicy(t, role, resource, flags).value, Entry((role, resource), flags);
    PolicyPlaces(t);
    hide ForeignKeys, UpsertPolicy, KeyedTables.Represents, Restrict;
    assert Entries(t') == Entries(t)[p := e];
    RepresentedOnce(t, m);
    PutRefines(Entries(t), p, e, m);
    EntriesLive(t, t', p, e);
    AllLive(Entries(t'), LivingKeys(t'), m[(role, resource) := flags]);
  }

  lemma EntriesLive(t: Tables, t': Tables, p: nat, e: Entry<Key>)
    requires PolicyKeys(t) && t'.departmentRoles == t.departmentRoles && e.key.0 in t.departmentRoles.rows
    requires Entries(t') == Entries(t)[p := e]
    ensures forall q | q in Entries(t') :: Entries(t')[q].key in LivingKeys(t')
  {
    forall q | q in Entries(t') ensures Entries(t')[q].key in LivingKeys(t') {
      if q != p { assert Entries(t')[q] == Entries(t)[q]; }
    }
  }

  lemma PolicyPlaces(t: Tables)
    requires ForeignKeys(t)
    ensures PolicyKeys(t)
  {
  }

  lemma RepresentedOnce(t: Tables, m: PolicyMap)
    requires Represents(t, m)
    ensures UniquePolicies(t.policies.rows)
  {
    var e := Entries(t);
    forall p, q | p in t.policies.rows && q in t.policies.rows
        && PolicyKey(t.policies.rows[p]) == PolicyKey(t.policies.rows[q])
      ensures p == q
    {
      assert e[p].key == e[q].key;
    }
  }

  lemma WrittenByRoot(c: Catalog, t: Tables, req: Request, m: PolicyMap)
    requires !req.SetDepartmentRolePolicy?
    ensures Written(c, t, req, m) == if RootOf(t, req).Some? then m - KeysOf(Entries(t), RootOf(t, req).value.policies)
              else m
  {
    if RootOf(t, req).Some? && !req.RemoveDepartmentRolePolicy? {
      assert KeysOf(Entries(t), RootOf(t, req).value.policies) == {};
    }
  }

  lemma StatementRefines(c: Catalog, t: Tables, req: Request, l: Local, m: PolicyMap)
    requires Inv(c, t) && Represents(t, m)
    ensures var (t', progress) := Advance(c, t, req, l);
            Represents(t', Living(t', if progress == Over(Ok(Done)) then Written(c, t, req, m) else m))
  {
    StatementShape(c, t, req, l);
    SoundKeys(c, t);
    if req.SetDepartmentRolePolicy? {
      SetPolicyRefines(c, t, req, l, m);
    } else {
      WrittenByRoot(c, t, req, m);
      hide Advance, DeleteRows, Inv, Represents, ForeignKeys, Written, RootOf, Living;
      var (t', progress) := Advance(c, t, req, l);
      if progress == Over(Ok(Done)) && RootOf(t, req).Some? {
        DeleteRefines(t, RootOf(t, req).value, m);
      } else {
        SamePoliciesRefine(t, t', m);
      }
    }
  }

  lemma SetPolicyStatement(c: Catalog, t: Tables, req: Request, l: Local)
    requires req.SetDepartmentRolePolicy?
    ensures var (t', progress) := Advance(c, t, req, l);
            var key := NormalizePolicyResource(c, req.resource);
            var written := UpsertPolicy(t, req.departmentRoleId, key, BuildPolicyFlags(c, key, req.flags));
            progress == Over(Ok(Done)) ==> written.Ok? && t' == written.value
  {
    hide NormalizePolicyResource, BuildPolicyFlags, UpsertPolicy;
  }

  lemma SetPolicyRefines(c: Catalog, t: Tables, req: Request, l: Local, m: PolicyMap)
    requires ForeignKeys(t) && t.policies.Valid() && Represents(t, m) && req.SetDepartmentRolePolicy?
    ensures var (t', progress) := Advance(c, t, req, l);
            Represents(t', Living(t', if progress == Over(Ok(Done)) then Written(c, t, req, m) else m))
  {
    SetPolicyStatement(c, t, req, l);
    StatementShape(c, t, req, l);
    SamePoliciesRefine(t, t, m);
    var key := NormalizePolicyResource(c, req.resource);
    var flags := BuildPolicyFlags(c, key, req.flags);
    if Advance(c, t, req, l).1 == Over(Ok(Done)) { UpsertRefines(t, req.departmentRoleId, key, flags, m); }
    hide Advance, NormalizePolicyResource, BuildPolicyFlags, Represents, ForeignKeys, UpsertPolicy, Living;
  }

  lemma SameTableRefines(t: Tables, t': Tables, m: PolicyMap)
    requires Represents(t, m) && t'.policies == t.policies
    ensures Represents(t', m)
  {
    hide KeyedTables.Represents;
    assert Entries(t') == Entries(t);
  }

  lemma NextRefines(c: Catalog, s: System, e: Event, m: PolicyMap)
    requires Inv(c, s.tables) && Represents(s.tables, m)
    ensures Represents(Next(c, s, e).tables, MapNext(c, s, e, m))
  {
    hide Advance, Represents, Living, Written, Inv;
    if e.Turn? && e.pid in s.running {
      StatementRefines(c, s.tables, s.running[e.pid].req, s.running[e.pid].local, m);
    } else if e.Write? {
      TaskWriteLeavesAccess(s.tables, e.write);
      SameTableRefines(s.tables, AfterWrite(s.tables, e.write), m);
    }
  }

  lemma StoredAreStorable(c: Catalog, t: Tables)
    requires Inv(c, t)
    ensures forall p | p in t.policies.rows :: Storable(c, t.policies.rows[p].resource)
  {
  }

  /** In every interleaving the policy table is the last-writer-wins map of the policy writes, in the order the writes
      happened, restricted to the roles that still exist; with one row per key, allowed, and standing for itself. */
  lemma {:induction false} EveryInterleavingRefines(c: Catalog, events: seq<Event>)
    requires c.Valid()
    ensures var s := System(EMPTY, map[]);
            var t := Run(c, s, events).tables;
            && Represents(t, MapAfter(c, s, events, map[]))
            && (forall p | p in t.policies.rows :: Storable(c, t.policies.rows[p].resource))
  {
    var s := System(EMPTY, map[]);
    EmptyIsSound(c);
    RunKeepsInv(c, s, events);
    StoredAreStorable(c, Run(c, s, events).tables);
    if events != [] {
      var before := events[..|events| - 1];
      EveryInterleavingRefines(c, before);
      RunKeepsInv(c, s, before);
      hide Next, MapNext, Represents, Inv, Storable;
      NextRefines(c, Run(c, s, before), events[|events| - 1], MapAfter(c, s, before, map[]));
    }
  }
}
