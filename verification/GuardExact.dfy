/** Exactly when the guard lets through whatever the access map allows, row orders included. */
module GuardExact {
  import opened Wrappers
  import opened Text
  import opened Catalog
  import opened Tables
  import opened Statements
  import opened AccessMap
  import opened Requests
  import opened MemberAccess
  import opened PolicyTables
  import opened Scripts
  import opened Guard

  // ── Lists of a set ──────────────────────────────────────────────────────

  lemma {:induction false} ListOf(s: set<nat>) returns (ids: seq<nat>)
    ensures Lists(ids, s)
  {
    if s == {} {
      ids := [];
    } else {
      var x :| x in s;
      ids := ListFrom(s, x);
    }
  }

  /** A database that leaves the order open can answer with any of the rows first. */
  lemma {:induction false} ListFrom(s: set<nat>, x: nat) returns (ids: seq<nat>)
    requires x in s
    ensures Lists(ids, s) && ids != [] && ids[0] == x
    decreases |s|, 0
  {
    var s' := s - {x};
    if s' == {} {
      ids := [x];
      assert s == {x};
    } else {
      var y :| y in s';
      var rest := ListFrom(s', y);
      ids := [x] + rest;
      forall i, j | 0 <= i < j < |ids| ensures ids[i] != ids[j] {
        assert ids[j] == rest[j - 1] && rest[j - 1] in rest;
      }
    }
  }

  lemma ListMeaning(ids: seq<nat>, s: set<nat>)
    requires Lists(ids, s)
    ensures (ids == [] <==> s == {}) && (ids != [] ==> ids[0] in s)
  {
    if s != {} {
      var x :| x in s;
      assert x in ids;
    }
    if ids != [] { assert ids[0] in ids; }
  }

  // ── What the rows say ───────────────────────────────────────────────────

  /** In some row order the map allows the action: a policy row for the key allows it; or there is none and a project-wide
      or own-department row allows it, or nothing matches the member at all and it is a view of a default. */
  ghost predicate MapMay(c: Catalog, t: Tables, m: Member, key: string, a: Action) {
    if RolePolicies(t, m, key) != {} then exists p :: p in RolePolicies(t, m, key) && t.policies.rows[p].flags.Allows(a)
    else
      SomeRowAllows(t, m, key, a) || (NothingMatches(t, m) && a == View && key in c.defaults)
  }

  /** In every row order the guard allows the action. */
  ghost predicate GuardAlways(defaults: set<string>, t: Tables, m: Member, resource: string, a: Action) {
    var key := ToUpper(resource);
    if RolePermissions(t, m, key) == {} && RolePolicies(t, m, key) == {} then a == View && key in defaults
    else
      && (resource == "TASK" || resource == "SUBTASK" ==>
            forall p | p in RolePermissions(t, m, key) && t.permissions.rows[p].departmentId.Some? ::
              t.permissions.rows[p].departmentId == m.departmentId)
      && (if RolePolicies(t, m, key) != {} then forall p | p in RolePolicies(t, m, key) :: t.policies.rows[p].flags.Allows(a)
          else forall p | p in RolePermissions(t, m, key) :: t.permissions.rows[p].flags.Allows(a))
  }

  lemma RowKeys(c: Catalog, t: Tables, f: Fetch)
    requires SoundGrants(c, t) && Known(t, f)
    ensures forall i | 0 <= i < |f.policies| ::
              PolicyGrants(t, f.policies)[i] == Grant(t.policies.rows[f.policies[i]].resource,
              t.policies.rows[f.policies[i]].flags)
    ensures forall i | 0 <= i < |f.policies| ::
              PolicyGrants(t, f.policies)[i].Key() == t.policies.rows[f.policies[i]].resource
    ensures forall i | 0 <= i < |f.permissions| ::
              PermissionGrants(t, f.permissions)[i].Key() == t.permissions.rows[f.permissions[i]].resource
  {
    hide Normalize;
    forall i | 0 <= i < |f.policies|
        ensures PolicyGrants(t, f.policies)[i].Key() == t.policies.rows[f.policies[i]].resource {
      assert f.policies[i] in t.policies.rows;
    }
    forall i | 0 <= i < |f.permissions|
        ensures PermissionGrants(t, f.permissions)[i].Key() == t.permissions.rows[f.permissions[i]].resource {
      assert f.permissions[i] in t.permissions.rows;
    }
  }

  lemma OnePolicy(c: Catalog, t: Tables, m: Member, key: string)
    requires Inv(c, t)
    ensures SoundGrants(c, t)
    ensures forall p, q | p in RolePolicies(t, m, key) && q in RolePolicies(t, m, key) :: p == q
  {
  }

  /** The policy the map goes by is the member's policy row for the key. */
  lemma PolicyOfKey(c: Catalog, t: Tables, m: Member, key: string, f: Fetch)
    requires Inv(c, t) && Answers(t, m, f) && Known(t, f)
    ensures LastMatch(PolicyGrants(t, f.policies), key).None? <==> RolePolicies(t, m, key) == {}
    ensures forall p | p in RolePolicies(t, m, key) ::
              LastMatch(PolicyGrants(t, f.policies), key) == Some(t.policies.rows[p].flags)
  {
    OnePolicy(c, t, m, key);
    RowKeys(c, t, f);
    hide Inv, SoundGrants, Normalize, LastMatch;
    var rows := PolicyGrants(t, f.policies);
    LastMatchMeaning(rows, key);
    forall p | p in RolePolicies(t, m, key) ensures LastMatch(rows, key).Some? {
      assert p in MatchingPolicies(t, m) && p in f.policies;
      var i :| 0 <= i < |f.policies| && f.policies[i] == p;
      assert rows[i] in rows;
    }
    if LastMatch(rows, key).Some? {
      var i: nat :| LastAt(rows, key, i) && LastMatch(rows, key) == Some(rows[i].flags);
      assert f.policies[i] in MatchingPolicies(t, m);
      assert f.policies[i] in RolePolicies(t, m, key);
    }
  }

  ghost predicate SomeRowAllows(t: Tables, m: Member, key: string, a: Action) {
    exists p :: p in MatchingPermissions(t, m) && t.permissions.rows[p].resource == key
        && t.permissions.rows[p].flags.Allows(a)
  }

  /** Row `i` of the answer is a matching permission, and its grant carries that permission's key and flags. */
  lemma PermissionAt(c: Catalog, t: Tables, m: Member, f: Fetch, i: nat)
    requires SoundGrants(c, t) && Answers(t, m, f) && Known(t, f) && i < |f.permissions|
    ensures var p, rows := f.permissions[i], PermissionGrants(t, f.permissions);
            && p in MatchingPermissions(t, m) && rows[i] in rows
            && rows[i].Key() == t.permissions.rows[p].resource && rows[i].flags == t.permissions.rows[p].flags
  {
    RowKeys(c, t, f);
    assert f.permissions[i] in f.permissions;
    hide Normalize;
  }

  /** A permission that decides comes from a matching row of the key. */
  lemma FirstComesFromRow(c: Catalog, t: Tables, m: Member, key: string, a: Action, f: Fetch)
    requires SoundGrants(c, t) && Answers(t, m, f) && Known(t, f)
    requires var rows := PermissionGrants(t, f.permissions);
             FirstMatch(rows, key).Some? && FirstMatch(rows, key).value.Allows(a)
    ensures SomeRowAllows(t, m, key, a)
  {
    var rows := PermissionGrants(t, f.permissions);
    FirstMatchMeaning(rows, key);
    hide SoundGrants, Answers, Normalize, FirstMatch;
    var i: nat :| FirstAt(rows, key, i) && FirstMatch(rows, key) == Some(rows[i].flags);
    PermissionAt(c, t, m, f, i);
    assert f.permissions[i] in MatchingPermissions(t, m);
  }

  /** The row that comes first in the answer decides its key. */
  lemma FirstInLineDecides(c: Catalog, t: Tables, m: Member, f: Fetch)
    requires SoundGrants(c, t) && Answers(t, m, f) && Known(t, f) && f.permissions != []
    ensures f.permissions[0] in MatchingPermissions(t, m)
    ensures var row := t.permissions.rows[f.permissions[0]];
            FirstMatch(PermissionGrants(t, f.permissions), row.resource) == Some(row.flags)
  {
    var rows := PermissionGrants(t, f.permissions);
    PermissionAt(c, t, m, f, 0);
    hide SoundGrants, Answers, Normalize, FirstMatch, MatchingPermissions;
    FirstMatchMeaning(rows, rows[0].Key());
  }

  lemma InAnswer(t: Tables, m: Member, f: Fetch, p: nat) returns (i: nat)
    requires Answers(t, m, f) && p in MatchingPermissions(t, m)
    ensures i < |f.permissions| && f.permissions[i] == p
  {
    assert p in f.permissions;
    i :| 0 <= i < |f.permissions| && f.permissions[i] == p;
  }

  /** The merge allows exactly what some matching row allows. */
  lemma MergeAllowsIff(c: Catalog, t: Tables, m: Member, key: string, a: Action, f: Fetch)
    requires SoundGrants(c, t) && Answers(t, m, f) && Known(t, f)
    ensures var rows := PermissionGrants(t, f.permissions);
            (AnyMatch(rows, key).Some? && AnyMatch(rows, key).value.Allows(a)) <==> SomeRowAllows(t, m, key, a)
  {
    hide SoundGrants, Answers, Normalize, AnyMatch;
    var rows := PermissionGrants(t, f.permissions);
    AnyMatchMeaning(rows, key, a);
    if g :| g in rows && g.Key() == key && g.flags.Allows(a) {
      var i :| 0 <= i < |rows| && rows[i] == g;
      PermissionAt(c, t, m, f, i);
      assert f.permissions[i] in MatchingPermissions(t, m);
    }
    if p :| p in MatchingPermissions(t, m) && t.permissions.rows[p].resource == key && t.permissions.rows[p].flags.Allows(a) {
      var i := InAnswer(t, m, f, p);
      PermissionAt(c, t, m, f, i);
    }
  }

  ghost predicate RuleAllows(c: Catalog, t: Tables, key: string, a: Action, f: Fetch)
    requires Known(t, f)
  {
    var rule := Rule(c, PolicyGrants(t, f.policies), PermissionGrants(t, f.permissions), key);
    rule.Some? && rule.value.Allows(a)
  }

  ghost predicate MapAllows(c: Catalog, t: Tables, m: Member, key: string, a: Action, f: Fetch) {
    Answers(t, m, f) && Known(t, f) && RuleAllows(c, t, key, a, f)
  }

  ghost predicate NothingMatches(t: Tables, m: Member) {
    MatchingPolicies(t, m) == {} && MatchingPermissions(t, m) == {}
  }

  lemma SoundStore(c: Catalog, t: Tables)
    requires Inv(c, t)
    ensures SoundGrants(c, t)
  {
  }

  /** With a policy row for the key, it alone says what the map allows. */
  lemma PolicyDecides(c: Catalog, t: Tables, m: Member, key: string, a: Action, f: Fetch, p: nat)
    requires Inv(c, t) && key != "" && Answers(t, m, f) && Known(t, f) && p in RolePolicies(t, m, key)
    ensures RuleAllows(c, t, key, a, f) <==> t.policies.rows[p].flags.Allows(a)
  {
    PolicyOfKey(c, t, m, key, f);
    assert LastMatch(PolicyGrants(t, f.policies), key) == Some(t.policies.rows[p].flags);
    hide Inv, LastMatch, FirstMatch, AnyMatch, Answers;
  }

  /** Without one, it is a matching permission, or the defaults. */
  lemma PermissionsMay(c: Catalog, t: Tables, m: Member, key: string, a: Action, f: Fetch)
    requires c.Valid() && Inv(c, t) && key != "" && Answers(t, m, f) && Known(t, f) && RolePolicies(t, m, key) == {}
    requires RuleAllows(c, t, key, a, f)
    ensures SomeRowAllows(t, m, key, a) || (NothingMatches(t, m) && a == View && key in c.defaults)
  {
    SoundStore(c, t);
    PolicyOfKey(c, t, m, key, f);
    MergeAllowsIff(c, t, m, key, a, f);
    ListMeaning(f.policies, MatchingPolicies(t, m));
    ListMeaning(f.permissions, MatchingPermissions(t, m));
    var rows := PermissionGrants(t, f.permissions);
    if FirstMatch(rows, key).Some? && FirstMatch(rows, key).value.Allows(a) { FirstComesFromRow(c, t, m, key, a, f); }
    hide Inv, LastMatch, FirstMatch, AnyMatch, Answers, SomeRowAllows, MatchingPolicies, MatchingPermissions, RolePolicies;
  }

  lemma AllowedMay(c: Catalog, t: Tables, m: Member, key: string, a: Action, f: Fetch)
    requires c.Valid() && Inv(c, t) && key != "" && MapAllows(c, t, m, key, a, f)
    ensures MapMay(c, t, m, key, a)
  {
    if p :| p in RolePolicies(t, m, key) {
      PolicyDecides(c, t, m, key, a, f, p);
      hide Inv, RuleAllows, Answers;
    } else {
      PermissionsMay(c, t, m, key, a, f);
      hide Inv, RuleAllows, Answers, RolePolicies;
    }
  }

  lemma MayByPermission(c: Catalog, t: Tables, m: Member, key: string, a: Action) returns (f: Fetch)
    requires c.Valid() && Inv(c, t) && key != "" && RolePolicies(t, m, key) == {} && SomeRowAllows(t, m, key, a)
    ensures MapAllows(c, t, m, key, a, f)
  {
    var p :| p in MatchingPermissions(t, m) && t.permissions.rows[p].resource == key
        && t.permissions.rows[p].flags.Allows(a);
    var policies := ListOf(MatchingPolicies(t, m));
    var permissions := ListFrom(MatchingPermissions(t, m), p);
    f := Fetch(policies, permissions);
    AnswersKnown(t, m, f);
    SoundStore(c, t);
    PolicyOfKey(c, t, m, key, f);
    FirstInLineDecides(c, t, m, f);
    MergeAllowsIff(c, t, m, key, a, f);
    hide Inv, LastMatch, FirstMatch, AnyMatch, SomeRowAllows, RolePolicies, Lists, Known, MatchingPermissions,
        MatchingPolicies;
  }

  lemma MayByDefault(c: Catalog, t: Tables, m: Member, key: string) returns (f: Fetch)
    requires c.Valid() && key != "" && NothingMatches(t, m) && key in c.defaults
    ensures MapAllows(c, t, m, key, View, f)
  {
    f := Fetch([], []);
    assert Answers(t, m, f);
    assert PolicyGrants(t, []) == [] && PermissionGrants(t, []) == [];
  }

  lemma MayBeAllowed(c: Catalog, t: Tables, m: Member, key: string, a: Action) returns (f: Fetch)
    requires c.Valid() && Inv(c, t) && key != "" && MapMay(c, t, m, key, a)
    ensures MapAllows(c, t, m, key, a, f)
  {
    if p :| p in RolePolicies(t, m, key) && t.policies.rows[p].flags.Allows(a) {
      var policies := ListOf(MatchingPolicies(t, m));
      var permissions := ListOf(MatchingPermissions(t, m));
      f := Fetch(policies, permissions);
      AnswersKnown(t, m, f);
      PolicyDecides(c, t, m, key, a, f, p);
      hide Inv, RuleAllows, Known, MatchingPermissions, MatchingPolicies;
    } else if SomeRowAllows(t, m, key, a) {
      f := MayByPermission(c, t, m, key, a);
    } else {
      f := MayByDefault(c, t, m, key);
    }
  }

  // ── What the guard does in every order ──────────────────────────────────

  ghost predicate GuardDenies(defaults: set<string>, t: Tables, m: Member, resource: string, a: Action, g: Fetch) {
    GuardAnswers(t, m, ToUpper(resource), g) && Known(t, g) && Decide(defaults, t, m, resource, a, g).Err?
  }

  lemma GuardListed(t: Tables, m: Member, key: string, g: Fetch)
    requires GuardAnswers(t, m, key, g)
    ensures g.policies == [] <==> RolePolicies(t, m, key) == {}
    ensures g.permissions == [] <==> RolePermissions(t, m, key) == {}
    ensures g.policies != [] ==> g.policies[0] in RolePolicies(t, m, key)
    ensures g.permissions != [] ==> g.permissions[0] in RolePermissions(t, m, key)
  {
    ListMeaning(g.policies, RolePolicies(t, m, key));
    ListMeaning(g.permissions, RolePermissions(t, m, key));
  }

  lemma AlwaysNeverDenies(defaults: set<string>, t: Tables, m: Member, resource: string, a: Action, g: Fetch)
    requires GuardAlways(defaults, t, m, resource, a)
    ensures !GuardDenies(defaults, t, m, resource, a, g)
  {
    if GuardAnswers(t, m, ToUpper(resource), g) {
      GuardListed(t, m, ToUpper(resource), g);
      hide GuardAnswers, ToUpper, RolePermissions, RolePolicies;
    }
  }

  /** If some order can make the guard deny, one that starts with the offending row does. */
  lemma NotAlwaysDenies(defaults: set<string>, t: Tables, m: Member, resource: string, a: Action) returns (g: Fetch)
    requires !GuardAlways(defaults, t, m, resource, a)
    ensures GuardDenies(defaults, t, m, resource, a, g)
  {
    var key := ToUpper(resource);
    var policies := ListOf(RolePolicies(t, m, key));
    var permissions := ListOf(RolePermissions(t, m, key));
    if p :| p in RolePolicies(t, m, key) && !t.policies.rows[p].flags.Allows(a) {
      policies := ListFrom(RolePolicies(t, m, key), p);
    }
    if p :| (resource == "TASK" || resource == "SUBTASK") && p in RolePermissions(t, m, key)
            && t.permissions.rows[p].departmentId.Some? && t.permissions.rows[p].departmentId != m.departmentId {
      permissions := ListFrom(RolePermissions(t, m, key), p);
    } else if p :| p in RolePermissions(t, m, key) && !t.permissions.rows[p].flags.Allows(a) {
      permissions := ListFrom(RolePermissions(t, m, key), p);
    }
    g := Fetch(policies, permissions);
    assert GuardAnswers(t, m, key, g);
    GuardAnswersKnown(t, m, key, g);
    GuardListed(t, m, key, g);
    hide GuardAnswers, ToUpper, RolePermissions, RolePolicies, Known;
  }

  // ── The exact condition ─────────────────────────────────────────────────

  /** Whatever orders the database answers in, the guard lets through what the map allows. */
  ghost predicate GuardCovers(c: Catalog, defaults: set<string>, t: Tables, m: Member, resource: string, a: Action) {
    forall f, g | Answers(t, m, f) && GuardAnswers(t, m, ToUpper(resource), g) ::
      Known(t, f) && Known(t, g) && (CanAccess(AccessOf(c, t, f), resource, a) ==>
          Decide(defaults, t, m, resource, a, g).Ok?)
  }

  lemma AccessIsMapAllows(c: Catalog, t: Tables, m: Member, resource: string, a: Action, f: Fetch)
    requires Trimmed(resource) && Answers(t, m, f)
    ensures Known(t, f)
    ensures CanAccess(AccessOf(c, t, f), resource, a) <==> MapAllows(c, t, m, ToUpper(resource), a, f)
  {
    AnswersKnown(t, m, f);
    TrimFixed(resource);
    AccessIsRule(c, PolicyGrants(t, f.policies), PermissionGrants(t, f.permissions), ToUpper(resource));
    hide Access, Rule, Trim, ToUpper;
  }

  /** The guard covers the map for a member and a resource exactly when either no order of the rows makes the map allow the
      action or every order makes the guard allow it. */
  lemma GuardCoversMapIff(c: Catalog, defaults: set<string>, t: Tables, m: Member, resource: string, a: Action)
    requires c.Valid() && Inv(c, t) && Trimmed(resource) && resource != ""
    ensures GuardCovers(c, defaults, t, m, resource, a)
            <==> (MapMay(c, t, m, ToUpper(resource), a) ==> GuardAlways(defaults, t, m, resource, a))
  {
    hide Inv, Answers, GuardAnswers, Known, CanAccess, AccessOf, Decide, MapMay, GuardAlways, ToUpper, Trim;
    var key := ToUpper(resource);
    UpperNotEmpty(resource);
    if MapMay(c, t, m, key, a) && !GuardAlways(defaults, t, m, resource, a) {
      var f := MayBeAllowed(c, t, m, key, a);
      var g := NotAlwaysDenies(defaults, t, m, resource, a);
      AccessIsMapAllows(c, t, m, resource, a, f);
    } else {
      forall f, g | Answers(t, m, f) && GuardAnswers(t, m, key, g)
        ensures Known(t, f) && Known(t, g) && (CanAccess(AccessOf(c, t, f), resource, a) ==>
                  Decide(defaults, t, m, resource, a, g).Ok?)
      {
        AccessIsMapAllows(c, t, m, resource, a, f);
        GuardAnswersKnown(t, m, key, g);
        if CanAccess(AccessOf(c, t, f), resource, a) {
          AllowedMay(c, t, m, key, a, f);
          AlwaysNeverDenies(defaults, t, m, resource, a, g);
        }
      }
    }
  }

  lemma UpperNotEmpty(s: string)
    ensures |ToUpper(s)| == |s|
  {
  }

  /** The same of `canActivate` itself, for the member of the project a request is about. */
  lemma ActivationCoversMapIff(c: Catalog, defaults: set<string>, t: Tables, links: Links, user: Payload,
        metadata: Metadata, args: Args)
    requires c.Valid() && Inv(c, t) && Trimmed(metadata.resource) && metadata.resource != "" && user.role != "admin"
    requires ProjectOf(t, links, metadata.resource, args) != 0
               && (ProjectOf(t, links, metadata.resource, args), user.sub) in t.members
    ensures var m := t.members[(ProjectOf(t, links, metadata.resource, args), user.sub)];
            (forall f, g | Answers(t, m, f) && Answered(t, links, Some(user), Some(metadata), args, g) ::
               && Known(t, f)
               && (CanAccess(AccessOf(c, t, f), metadata.resource, metadata.action) ==>
                     Outcome(defaults, t, links, Some(user), Some(metadata), args, g) == Ok(true)))
            <==> (MapMay(c, t, m, ToUpper(metadata.resource), metadata.action) ==>
                    GuardAlways(defaults, t, m, metadata.resource, metadata.action))
  {
    var m := t.members[(ProjectOf(t, links, metadata.resource, args), user.sub)];
    GuardCoversMapIff(c, defaults, t, m, metadata.resource, metadata.action);
    hide Inv, Answers, GuardAnswers, Known, CanAccess, AccessOf, MapMay, GuardAlways, ToUpper, ProjectOf, Trimmed, Decide;
    forall f | Answers(t, m, f) ensures Known(t, f) { AnswersKnown(t, m, f); }
    forall g | GuardAnswers(t, m, ToUpper(metadata.resource), g)
      ensures Answered(t, links, Some(user), Some(metadata), args, g)
      ensures Known(t, g)
      ensures Outcome(defaults, t, links, Some(user), Some(metadata), args, g) == Decide(defaults, t, m,
                metadata.resource, metadata.action, g)
    {
      GuardAnswersKnown(t, m, ToUpper(metadata.resource), g);
    }
    forall g | GuardAnswers(t, m, ToUpper(metadata.resource), g)
      ensures Known(t, g)
      ensures Decide(defaults, t, m, metadata.resource, metadata.action, g).Ok?
              <==> Decide(defaults, t, m, metadata.resource, metadata.action, g) == Ok(true)
    {
      GuardAnswersKnown(t, m, ToUpper(metadata.resource), g);
      NeverOkFalse(defaults, t, m, metadata.resource, metadata.action, g);
    }
    hide Outcome;
  }

  lemma NeverOkFalse(defaults: set<string>, t: Tables, m: Member, resource: string, a: Action, g: Fetch)
    requires Known(t, g)
    ensures Decide(defaults, t, m, resource, a, g).Ok? <==> Decide(defaults, t, m, resource, a, g) == Ok(true)
  {
  }

  // ── A store in which it fails ───────────────────────────────────────────

  /** The map allows viewing and the guard denies it. */
  ghost predicate GuardDeniesWhatMapAllows(c: Catalog, defaults: set<string>, key: string, t: Tables, m: Member,
        f: Fetch, g: Fetch) {
    && m in t.members.Values && Answers(t, m, f) && GuardAnswers(t, m, key, g) && Known(t, f) && Known(t, g)
    && CanAccess(AccessOf(c, t, f), key, View) && Decide(defaults, t, m, key, View, g).Err?
  }

  /** Some member of the store has the guard deny what the map allows. */
  ghost predicate Broken(c: Catalog, defaults: set<string>, key: string, t: Tables) {
    exists m, f, g :: GuardDeniesWhatMapAllows(c, defaults, key, t, m, f, g)
  }

  /** With a permission scoped to another department the guard may deny what the map allows, and ordinary requests lead
      there: it lets whichever row of the role the database returns first decide. */
  lemma ScopedRowsBreakRefinement(c: Catalog, defaults: set<string>, key: string)
    requires c.Valid() && Storable(c, key) && key != ""
    ensures exists reqs :: Broken(c, defaults, key, HandleAll(c, EMPTY, reqs))
  {
    hide Broken, ScopedFirst, Storable, HandleAll;
    var reqs := ScopedFirstReached(c, key);
    ScopedFirstBreaks(c, defaults, key);
  }

  lemma ScopedFirstBreaks(c: Catalog, defaults: set<string>, key: string)
    requires Storable(c, key) && key != ""
    ensures Broken(c, defaults, key, ScopedFirst(key))
  {
    hide GuardDeniesWhatMapAllows, ScopedFirst, Storable;
    ScopedFirstDenies(c, defaults, key);
  }

  lemma ScopedFirstDenies(c: Catalog, defaults: set<string>, key: string)
    requires Storable(c, key) && key != ""
    ensures GuardDeniesWhatMapAllows(
              c, defaults, key, ScopedFirst(key), Member(Some(1), None, None), Fetch([], [2]), Fetch([], [1, 2]))
  {
    hide GuardAnswers, Answers, AccessOf, ScopedFirst, CanAccess, Decide, IsNormal, Known;
    NormalizeMeaning(key);
    ScopedFirstAnswers(key);
    ScopedFirstMapAllows(c, key);
    ScopedFirstMember(key);
    ScopedFirstDecision(defaults, key);
    hide Storable, Normalize, NormalizePolicyResource;
  }

  /** A project with a department and a role, a member with the role, and the two permissions, one after the other. */
  lemma ScopedFirstReached(c: Catalog, key: string) returns (longer: seq<Request>)
    requires c.Valid() && Storable(c, key)
    ensures HandleAll(c, EMPTY, longer) == ScopedFirst(key)
  {
    var reqs := MemberWithRole(c);
    hide HandleAll, Storable;
    var t := HandleAll(c, EMPTY, reqs);
    var t1 := t.(permissions := t.permissions.Insert(Permission(1, Some(1), key, NO_ACCESS)));
    HandleAllAppend(c, EMPTY, reqs, SetPermission(1, key, Some(1), NO_ACCESS));
    PermissionSet(c, t, 1, key, Some(1), NO_ACCESS);
    HandleAllAppend(c, EMPTY, reqs + [SetPermission(1, key, Some(1), NO_ACCESS)], SetPermission(1, key, None, VIEW_ACCESS));
    PermissionSet(c, t1, 1, key, None, VIEW_ACCESS);
    assert t1.permissions.Insert(Permission(1, None, key, VIEW_ACCESS)) == ScopedFirst(key).permissions;
    longer := reqs + [SetPermission(1, key, Some(1), NO_ACCESS)] + [SetPermission(1, key, None, VIEW_ACCESS)];
  }

  /** Project 1 with department 1 and role 1, and user 1 with that role. */
  lemma MemberWithRole(c: Catalog) returns (reqs: seq<Request>)
    ensures HandleAll(c, EMPTY, reqs) == ScopedFirst("").(permissions := EMPTY.permissions)
  {
    var t1 := InsertProject(EMPTY, "p", 1);
    HandleAllAppend(c, EMPTY, [], CreateProject(1, "p"));
    ProjectCreated(c, EMPTY, 1, "p");
    var r1 := [] + [CreateProject(1, "p")];
    HandleAllAppend(c, EMPTY, r1, CreateUser("u"));
    UserCreated(c, t1, "u");
    var t2, r2 := InsertUser(t1, "u"), r1 + [CreateUser("u")];
    HandleAllAppend(c, EMPTY, r2, CreateDepartment(1, "d"));
    DepartmentCreated(c, t2, 1, "d");
    var t3, r3 := t2.(departments := t2.departments.Insert(Department(1, "d"))), r2 + [CreateDepartment(1, "d")];
    HandleAllAppend(c, EMPTY, r3, CreateRole(1, "r"));
    RoleCreated(c, t3, 1, "r");
    var t4, r4 := t3.(projectRoles := t3.projectRoles.Insert(ProjectRole(1, "r"))), r3 + [CreateRole(1, "r")];
    HandleAllAppend(c, EMPTY, r4, AssignUser(1, 1));
    UserAssigned(c, t4, 1, 1);
    var t5, r5 := t4.(members := t4.members[(1, 1) := Member(None, None, None)]), r4 + [AssignUser(1, 1)];
    HandleAllAppend(c, EMPTY, r5, SetUserRole(1, 1, 1));
    UserRoleSet(c, t5, 1, 1, 1);
    reqs := r5 + [SetUserRole(1, 1, 1)];
    assert HandleAll(c, EMPTY, []) == EMPTY;
    hide HandleAll, Handle;
    assert t5.members[(1, 1) := Member(Some(1), None, None)] == map[(1, 1) := Member(Some(1), None, None)];
  }

  lemma ScopedFirstAnswers(key: string)
    requires IsNormal(key) && key != ""
    ensures var t, m, f, g := ScopedFirst(key), Member(Some(1), None, None), Fetch([], [2]), Fetch([], [1, 2]);
            Answers(t, m, f) && GuardAnswers(t, m, key, g) && Known(t, f) && Known(t, g)
  {
    var t, m := ScopedFirst(key), Member(Some(1), None, None);
    assert MatchingPolicies(t, m) == {} && RolePolicies(t, m, key) == {};
    assert MatchingPermissions(t, m) == {2} && RolePermissions(t, m, key) == {1, 2};
  }

  /** A role with a row for one department, granting nothing, and a project-wide one that grants viewing. */
  function ScopedFirst(key: string): Tables {
    EMPTY.(
      projects := Table(map[1 := Project("p", 1)], 2), users := Table(map[1 := User("u")], 2),
      departments := Table(map[1 := Department(1, "d")], 2), projectRoles := Table(map[1 := ProjectRole(1, "r")], 2),
      permissions := Table(map[1 := Permission(1, Some(1), key, NO_ACCESS), 2 := Permission(1, None, key, VIEW_ACCESS)], 3),
      members := map[(1, 1) := Member(Some(1), None, None)])
  }

  lemma ScopedFirstMember(key: string)
    ensures Member(Some(1), None, None) in ScopedFirst(key).members.Values
  {
    assert ScopedFirst(key).members[(1, 1)] == Member(Some(1), None, None);
  }

  lemma ScopedFirstDecision(defaults: set<string>, key: string)
    ensures var t, m, g := ScopedFirst(key), Member(Some(1), None, None), Fetch([], [1, 2]);
            Known(t, g) && Decide(defaults, t, m, key, View, g).Err?
  {
  }

  lemma ScopedFirstMapAllows(c: Catalog, key: string)
    requires IsNormal(key) && key != ""
    ensures CanAccess(AccessOf(c, ScopedFirst(key), Fetch([], [2])), key, View)
  {
    var t, f := ScopedFirst(key), Fetch([], [2]);
    NormalizeMeaning(key);
    var rows := PermissionGrants(t, f.permissions);
    assert rows == [Grant(key, VIEW_ACCESS)] && PolicyGrants(t, f.policies) == [];
    Snoc([], Grant(key, VIEW_ACCESS));
    assert [] + [Grant(key, VIEW_ACCESS)] == rows;
    AccessIsRule(c, [], rows, key);
  }
}
