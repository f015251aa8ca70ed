/** The other direction: exactly when the access map allows whatever the guard lets through. */
module GuardMirror {
  import opened Wrappers
  import opened Text
  import opened Catalog
  import opened Tables
  import opened AccessMap
  import opened Requests
  import opened MemberAccess
  import opened PolicyTables
  import opened Scripts
  import opened Guard
  import opened GuardExact

  // ── What the map does in every order ────────────────────────────────────

  predicate MatchesKey(t: Tables, m: Member, key: string, p: nat) {
    p in MatchingPermissions(t, m) && t.permissions.rows[p].resource == key
  }

  /** In every row order the map allows the action: every policy row for the key allows it; or there is none, and either the
      member has no policy at all and some matching row allows it or the defaults do, or there is a matching row for the
      key and every such row allows it. */
  ghost predicate MapAlways(c: Catalog, t: Tables, m: Member, key: string, a: Action) {
    if RolePolicies(t, m, key) != {} then forall p | p in RolePolicies(t, m, key) :: t.policies.rows[p].flags.Allows(a)
    else if MatchingPolicies(t, m) == {} then SomeRowAllows(t, m, key, a)
        || (NothingMatches(t, m) && a == View && key in c.defaults)
    else AllRowsAllow(t, m, key, a)
  }

  ghost predicate AllRowsAllow(t: Tables, m: Member, key: string, a: Action) {
    && (exists p :: MatchesKey(t, m, key, p))
    && (forall p | MatchesKey(t, m, key, p) :: t.permissions.rows[p].flags.Allows(a))
  }

  /** The permission that decides a key in the branch with policies is one of its matching rows. */
  lemma FirstOfKey(c: Catalog, t: Tables, m: Member, key: string, f: Fetch)
    requires SoundGrants(c, t) && Answers(t, m, f) && Known(t, f)
    ensures var first := FirstMatch(PermissionGrants(t, f.permissions), key);
            && (first.None? ==> forall p :: !MatchesKey(t, m, key, p))
            && (first.Some? ==> exists p :: MatchesKey(t, m, key, p) && t.permissions.rows[p].flags == first.value)
  {
    var rows := PermissionGrants(t, f.permissions);
    FirstMatchMeaning(rows, key);
    hide SoundGrants, Answers, Normalize, FirstMatch;
    if FirstMatch(rows, key).Some? {
      var i: nat :| FirstAt(rows, key, i) && FirstMatch(rows, key) == Some(rows[i].flags);
      PermissionAt(c, t, m, f, i);
      assert MatchesKey(t, m, key, f.permissions[i]);
    } else if p :| MatchesKey(t, m, key, p) {
      var i := InAnswer(t, m, f, p);
      PermissionAt(c, t, m, f, i);
    }
  }

  lemma NoneListed(t: Tables, m: Member, f: Fetch)
    requires Answers(t, m, f) && Known(t, f)
    ensures PolicyGrants(t, f.policies) == [] <==> MatchingPolicies(t, m) == {}
    ensures NothingMatches(t, m) ==> PolicyGrants(t, f.policies) == [] && PermissionGrants(t, f.permissions) == []
  {
    ListMeaning(f.policies, MatchingPolicies(t, m));
    ListMeaning(f.permissions, MatchingPermissions(t, m));
  }

  lemma AlwaysAllowed(c: Catalog, t: Tables, m: Member, key: string, a: Action, f: Fetch)
    requires c.Valid() && Inv(c, t) && key != "" && Answers(t, m, f) && Known(t, f) && MapAlways(c, t, m, key, a)
    ensures RuleAllows(c, t, key, a, f)
  {
    if p :| p in RolePolicies(t, m, key) {
      PolicyDecides(c, t, m, key, a, f, p);
      hide Inv, RuleAllows, Answers;
    } else {
      NoneListed(t, m, f);
      hide Inv, SoundGrants, Answers, LastMatch, FirstMatch, SomeRowAllows, RolePolicies, MatchingPolicies,
          MatchingPermissions, MatchesKey;
      SoundStore(c, t);
      PolicyOfKey(c, t, m, key, f);
      MergeAllowsIff(c, t, m, key, a, f);
      FirstOfKey(c, t, m, key, f);
    }
  }

  /** If some order can make the map deny, one that starts with the offending row does. */
  lemma NotAlwaysDenied(c: Catalog, t: Tables, m: Member, key: string, a: Action) returns (f: Fetch)
    requires c.Valid() && Inv(c, t) && key != "" && !MapAlways(c, t, m, key, a)
    ensures Answers(t, m, f) && Known(t, f) && !RuleAllows(c, t, key, a, f)
  {
    hide Inv, RuleAllows;
    var policies := ListOf(MatchingPolicies(t, m));
    if p :| MatchesKey(t, m, key, p) && !t.permissions.rows[p].flags.Allows(a)
            && RolePolicies(t, m, key) == {} && MatchingPolicies(t, m) != {} {
      var permissions := ListFrom(MatchingPermissions(t, m), p);
      f := Fetch(policies, permissions);
      AnswersKnown(t, m, f);
      DeniedByFirst(c, t, m, key, a, f);
    } else {
      var permissions := ListOf(MatchingPermissions(t, m));
      f := Fetch(policies, permissions);
      AnswersKnown(t, m, f);
      if p :| p in RolePolicies(t, m, key) && !t.policies.rows[p].flags.Allows(a) {
        PolicyDecides(c, t, m, key, a, f, p);
      } else if RuleAllows(c, t, key, a, f) {
        PermissionsMay(c, t, m, key, a, f);
        hide Answers, Known;
        SomeRowMatches(t, m, key, a);
      }
    }
  }

  lemma SomeRowMatches(t: Tables, m: Member, key: string, a: Action)
    ensures SomeRowAllows(t, m, key, a) ==> exists p :: MatchesKey(t, m, key, p)
  {
    if p :| p in MatchingPermissions(t, m) && t.permissions.rows[p].resource == key && t.permissions.rows[p].flags.Allows(a) {
      assert MatchesKey(t, m, key, p);
    }
  }

  lemma DeniedByFirst(c: Catalog, t: Tables, m: Member, key: string, a: Action, f: Fetch)
    requires Inv(c, t) && key != "" && Answers(t, m, f) && Known(t, f) && RolePolicies(t, m, key) == {}
               && MatchingPolicies(t, m) != {}
    requires f.permissions != [] && t.permissions.rows[f.permissions[0]].resource == key
    requires !t.permissions.rows[f.permissions[0]].flags.Allows(a)
    ensures !RuleAllows(c, t, key, a, f)
  {
    SoundStore(c, t);
    PolicyOfKey(c, t, m, key, f);
    FirstInLineDecides(c, t, m, f);
    ListMeaning(f.policies, MatchingPolicies(t, m));
    hide Inv, SoundGrants, Answers, LastMatch, FirstMatch, AnyMatch, RolePolicies, MatchingPolicies, MatchingPermissions;
  }

  // ── What the guard can do in some order ─────────────────────────────────

  predicate TaskLike(resource: string) {
    resource == "TASK" || resource == "SUBTASK"
  }

  predicate InScope(t: Tables, m: Member, p: nat)
    requires p in t.permissions.rows
  {
    t.permissions.rows[p].departmentId.None? || t.permissions.rows[p].departmentId == m.departmentId
  }

  /** In some row order the guard allows the action: a policy row for the key allows it and, for TASK and SUBTASK, the role's
      rows do not all belong to other departments; or there is no policy and some row of the role, of any department but
      for TASK and SUBTASK, allows it; or there is no row at all and it is a view of a default. */
  ghost predicate GuardMay(defaults: set<string>, t: Tables, m: Member, resource: string, a: Action) {
    var key := ToUpper(resource);
    if RolePermissions(t, m, key) == {} && RolePolicies(t, m, key) == {} then a == View && key in defaults
    else if RolePolicies(t, m, key) != {} then
      && (exists p :: p in RolePolicies(t, m, key) && t.policies.rows[p].flags.Allows(a))
      && (TaskLike(resource) && RolePermissions(t, m, key) != {} ==>
          exists p :: p in RolePermissions(t, m, key) && InScope(t, m, p))
    else
      exists p :: p in RolePermissions(t, m, key) && t.permissions.rows[p].flags.Allows(a) && (TaskLike(resource) ==>
          InScope(t, m, p))
  }

  ghost predicate GuardAllows(defaults: set<string>, t: Tables, m: Member, resource: string, a: Action, g: Fetch) {
    GuardAnswers(t, m, ToUpper(resource), g) && Known(t, g) && Decide(defaults, t, m, resource, a, g).Ok?
  }

  lemma AllowsMeansMay(defaults: set<string>, t: Tables, m: Member, resource: string, a: Action, g: Fetch)
    requires GuardAllows(defaults, t, m, resource, a, g)
    ensures GuardMay(defaults, t, m, resource, a)
  {
    GuardListed(t, m, ToUpper(resource), g);
    hide GuardAnswers, ToUpper, RolePermissions, RolePolicies;
  }

  lemma MayMeansAllows(defaults: set<string>, t: Tables, m: Member, resource: string, a: Action) returns (g: Fetch)
    requires GuardMay(defaults, t, m, resource, a)
    ensures GuardAllows(defaults, t, m, resource, a, g)
  {
    var key := ToUpper(resource);
    var policies := ListOf(RolePolicies(t, m, key));
    var permissions := ListOf(RolePermissions(t, m, key));
    if p :| p in RolePolicies(t, m, key) && t.policies.rows[p].flags.Allows(a) {
      policies := ListFrom(RolePolicies(t, m, key), p);
      if q :| p in RolePolicies(t, m, key) && q in RolePermissions(t, m, key) && InScope(t, m, q) {
        permissions := ListFrom(RolePermissions(t, m, key), q);
      }
    } else if p :| p in RolePermissions(t, m, key) && t.permissions.rows[p].flags.Allows(a) && (TaskLike(resource) ==>
        InScope(t, m, p)) {
      permissions := ListFrom(RolePermissions(t, m, key), p);
    }
    g := Fetch(policies, permissions);
    assert GuardAnswers(t, m, key, g);
    GuardAnswersKnown(t, m, key, g);
    GuardListed(t, m, key, g);
    hide GuardAnswers, ToUpper, RolePermissions, RolePolicies, Known;
  }

  // ── The exact condition ─────────────────────────────────────────────────

  /** Whatever orders the database answers in, the map allows what the guard lets through. */
  ghost predicate MapCovers(c: Catalog, defaults: set<string>, t: Tables, m: Member, resource: string, a: Action) {
    forall f, g | Answers(t, m, f) && GuardAnswers(t, m, ToUpper(resource), g) ::
      Known(t, f) && Known(t, g) && (Decide(defaults, t, m, resource, a, g).Ok? ==>
          CanAccess(AccessOf(c, t, f), resource, a))
  }

  /** The map covers the guard for a member and a resource exactly when either no order of the rows makes the guard allow the
      action or every order makes the map allow it. */
  lemma MapCoversGuardIff(c: Catalog, defaults: set<string>, t: Tables, m: Member, resource: string, a: Action)
    requires c.Valid() && Inv(c, t) && Trimmed(resource) && resource != ""
    ensures MapCovers(c, defaults, t, m, resource, a)
            <==> (GuardMay(defaults, t, m, resource, a) ==> MapAlways(c, t, m, ToUpper(resource), a))
  {
    hide Inv, Answers, GuardAnswers, Known, CanAccess, AccessOf, Decide, MapAlways, GuardMay, RuleAllows, ToUpper, Trim;
    var key := ToUpper(resource);
    UpperNotEmpty(resource);
    if GuardMay(defaults, t, m, resource, a) && !MapAlways(c, t, m, key, a) {
      var f := NotAlwaysDenied(c, t, m, key, a);
      var g := MayMeansAllows(defaults, t, m, resource, a);
      AccessIsMapAllows(c, t, m, resource, a, f);
    } else {
      forall f, g | Answers(t, m, f) && GuardAnswers(t, m, key, g)
        ensures Known(t, f) && Known(t, g) && (Decide(defaults, t, m, resource, a, g).Ok? ==>
                  CanAccess(AccessOf(c, t, f), resource, a))
      {
        AccessIsMapAllows(c, t, m, resource, a, f);
        GuardAnswersKnown(t, m, key, g);
        if Decide(defaults, t, m, resource, a, g).Ok? {
          AllowsMeansMay(defaults, t, m, resource, a, g);
          AlwaysAllowed(c, t, m, key, a, f);
        }
      }
    }
  }

  // ── A store in which it fails ───────────────────────────────────────────

  /** Some member of the store has the guard let through what the map denies. */
  ghost predicate GuardIsWider(c: Catalog, defaults: set<string>, key: string, t: Tables) {
    exists k :: k in t.members && !MapCovers(c, defaults, t, t.members[k], key, View)
  }

  /** A member without department whose role may view `key` in one department only. */
  function Elsewhere(key: string): Tables {
    ScopedFirst(key).(permissions := Table(map[1 := Permission(1, Some(1), key, VIEW_ACCESS)], 2))
  }

  lemma ElsewhereReached(c: Catalog, key: string) returns (reqs: seq<Request>)
    requires c.Valid() && Storable(c, key)
    ensures HandleAll(c, EMPTY, reqs) == Elsewhere(key)
  {
    hide HandleAll, Handle, Storable;
    var r0 := MemberWithRole(c);
    var t0 := ScopedFirst("").(permissions := EMPTY.permissions);
    HandleAllAppend(c, EMPTY, r0, SetPermission(1, key, Some(1), VIEW_ACCESS));
    PermissionSet(c, t0, 1, key, Some(1), VIEW_ACCESS);
    reqs := r0 + [SetPermission(1, key, Some(1), VIEW_ACCESS)];
    assert t0.permissions.Insert(Permission(1, Some(1), key, VIEW_ACCESS)) == Elsewhere(key).permissions;
  }

  lemma ElsewhereIsWider(c: Catalog, defaults: set<string>, key: string)
    requires c.Valid() && Inv(c, Elsewhere(key)) && IsNormal(key) && key != "" && key !in c.defaults && !TaskLike(key)
    ensures GuardIsWider(c, defaults, key, Elsewhere(key))
  {
    hide Inv;
    var t, m := Elsewhere(key), Member(Some(1), None, None);
    assert ToUpper(key) == key by { assert forall i | 0 <= i < |key| :: key[i] in key; }
    assert MatchingPolicies(t, m) == {} && RolePolicies(t, m, key) == {} && MatchingPermissions(t, m) == {};
    assert 1 in RolePermissions(t, m, key);
    assert GuardMay(defaults, t, m, key, View);
    MapCoversGuardIff(c, defaults, t, m, key, View);
    assert t.members[(1, 1)] == m;
    hide MapCovers;
  }

  /** Ordinary requests lead to such a store: outside TASK and SUBTASK the guard does not look at departments. */
  lemma GuardIsWiderSomewhere(c: Catalog, defaults: set<string>, key: string)
    requires c.Valid() && Storable(c, key) && key !in c.defaults && !TaskLike(key)
    ensures exists reqs :: GuardIsWider(c, defaults, key, HandleAll(c, EMPTY, reqs))
  {
    hide GuardIsWider, HandleAll, Inv, NormalizePolicyResource;
    var reqs := ElsewhereReached(c, key);
    HandleAllKeepsInv(c, reqs);
    NormalizeMeaning(key);
    ElsewhereIsWider(c, defaults, key);
  }
}
