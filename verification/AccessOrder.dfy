/** Exactly when a member's access map depends on the order in which the database returns the member's rows. */
module AccessOrder {
  import opened Wrappers
  import opened Text
  import opened Catalog
  import opened Tables
  import opened AccessMap
  import opened Requests
  import opened MemberAccess
  import opened PolicyTables
  import opened Scripts
  import opened Guard
  import opened GuardExact

  /** Whatever order the policies and the permissions come in, the map is the same. */
  ghost predicate OrderFree(c: Catalog, t: Tables, m: Member) {
    forall f, g | Answers(t, m, f) && Answers(t, m, g) ::
      Known(t, f) && Known(t, g) && AccessOf(c, t, f) == AccessOf(c, t, g)
  }

  /** Every two matching permissions of one resource, on which the member's department role has no policy, carry the same
      flags. */
  ghost predicate PermissionsAgree(t: Tables, m: Member) {
    forall p, q | p in MatchingPermissions(t, m) && q in MatchingPermissions(t, m)
                  && t.permissions.rows[p].resource == t.permissions.rows[q].resource
                  && RolePolicies(t, m, t.permissions.rows[p].resource) == {} ::
      t.permissions.rows[p].flags == t.permissions.rows[q].flags
  }

  lemma SameGrants(t: Tables, m: Member, f: Fetch, g: Fetch)
    requires Answers(t, m, f) && Answers(t, m, g) && Known(t, f) && Known(t, g)
    ensures forall x :: x in PermissionGrants(t, f.permissions) ==> x in PermissionGrants(t, g.permissions)
  {
    var rows, others := PermissionGrants(t, f.permissions), PermissionGrants(t, g.permissions);
    forall x | x in rows ensures x in others {
      var i :| 0 <= i < |rows| && rows[i] == x;
      assert f.permissions[i] in MatchingPermissions(t, m) && f.permissions[i] in g.permissions;
      var j :| 0 <= j < |g.permissions| && g.permissions[j] == f.permissions[i];
      assert others[j] == x;
    }
  }

  lemma BothEmpty(t: Tables, m: Member, f: Fetch, g: Fetch)
    requires Answers(t, m, f) && Answers(t, m, g) && Known(t, f) && Known(t, g)
    ensures PolicyGrants(t, f.policies) == [] <==> PolicyGrants(t, g.policies) == []
    ensures PolicyGrants(t, f.policies) == [] <==> MatchingPolicies(t, m) == {}
    ensures PermissionGrants(t, f.permissions) == [] <==> PermissionGrants(t, g.permissions) == []
  {
    ListMeaning(f.policies, MatchingPolicies(t, m));
    ListMeaning(g.policies, MatchingPolicies(t, m));
    ListMeaning(f.permissions, MatchingPermissions(t, m));
    ListMeaning(g.permissions, MatchingPermissions(t, m));
  }

  lemma AgreeOnKey(c: Catalog, t: Tables, m: Member, f: Fetch, key: string)
    requires SoundGrants(c, t) && Answers(t, m, f) && Known(t, f) && PermissionsAgree(t, m) && RolePolicies(t, m, key) == {}
    ensures var rows := PermissionGrants(t, f.permissions);
            forall g, h | g in rows && h in rows && g.Key() == h.Key() == key :: g.flags == h.flags
  {
    hide SoundGrants, Answers, Normalize;
    var rows := PermissionGrants(t, f.permissions);
    forall g, h | g in rows && h in rows && g.Key() == h.Key() == key ensures g.flags == h.flags {
      var i :| 0 <= i < |rows| && rows[i] == g;
      var j :| 0 <= j < |rows| && rows[j] == h;
      PermissionAt(c, t, m, f, i);
      PermissionAt(c, t, m, f, j);
    }
  }

  lemma SamePolicyOfKey(c: Catalog, t: Tables, m: Member, f: Fetch, g: Fetch, key: string)
    requires Inv(c, t) && Answers(t, m, f) && Answers(t, m, g) && Known(t, f) && Known(t, g)
    ensures LastMatch(PolicyGrants(t, f.policies), key) == LastMatch(PolicyGrants(t, g.policies), key)
    ensures LastMatch(PolicyGrants(t, f.policies), key).None? <==> RolePolicies(t, m, key) == {}
  {
    hide Inv, Answers, LastMatch;
    PolicyOfKey(c, t, m, key, f);
    PolicyOfKey(c, t, m, key, g);
    if p :| p in RolePolicies(t, m, key) {
      assert LastMatch(PolicyGrants(t, f.policies), key) == Some(t.policies.rows[p].flags);
    }
  }

  lemma SameMerge(t: Tables, m: Member, f: Fetch, g: Fetch, key: string)
    requires Answers(t, m, f) && Answers(t, m, g) && Known(t, f) && Known(t, g)
    ensures AnyMatch(PermissionGrants(t, f.permissions), key) == AnyMatch(PermissionGrants(t, g.permissions), key)
  {
    hide Answers, AnyMatch, PermissionGrants;
    SameGrants(t, m, f, g);
    SameGrants(t, m, g, f);
    AnyMatchIgnoresOrder(PermissionGrants(t, f.permissions), PermissionGrants(t, g.permissions), key);
  }

  lemma SameFirst(c: Catalog, t: Tables, m: Member, f: Fetch, g: Fetch, key: string)
    requires SoundGrants(c, t) && Answers(t, m, f) && Answers(t, m, g) && Known(t, f) && Known(t, g)
    requires PermissionsAgree(t, m) && RolePolicies(t, m, key) == {}
    ensures FirstMatch(PermissionGrants(t, f.permissions), key) == FirstMatch(PermissionGrants(t, g.permissions), key)
  {
    hide SoundGrants, Answers, FirstMatch, PermissionGrants, RolePolicies, PermissionsAgree;
    SameGrants(t, m, f, g);
    SameGrants(t, m, g, f);
    AgreeOnKey(c, t, m, f, key);
    FirstMatchAgrees(PermissionGrants(t, f.permissions), PermissionGrants(t, g.permissions), key);
  }

  lemma RuleFrom(c: Catalog, policies: seq<Grant>, policies': seq<Grant>, perms: seq<Grant>, perms': seq<Grant>, key: string)
    requires (policies == [] <==> policies' == []) && (perms == [] <==> perms' == [])
    requires LastMatch(policies, key) == LastMatch(policies', key) && AnyMatch(perms, key) == AnyMatch(perms', key)
    requires policies != [] && LastMatch(policies, key).None? ==> FirstMatch(perms, key) == FirstMatch(perms', key)
    ensures Rule(c, policies, perms, key) == Rule(c, policies', perms', key)
  {
    hide LastMatch, FirstMatch, AnyMatch;
  }

  /** Under the condition any two answers give a key the same flags. */
  lemma SameRule(c: Catalog, t: Tables, m: Member, f: Fetch, g: Fetch, key: string)
    requires Inv(c, t) && Answers(t, m, f) && Answers(t, m, g) && Known(t, f) && Known(t, g)
    requires MatchingPolicies(t, m) == {} || PermissionsAgree(t, m)
    ensures Rule(c, PolicyGrants(t, f.policies), PermissionGrants(t, f.permissions), key)
            == Rule(c, PolicyGrants(t, g.policies), PermissionGrants(t, g.permissions), key)
  {
    hide Inv, SoundGrants, Answers, Rule, LastMatch, FirstMatch, AnyMatch, MatchingPolicies, RolePolicies, PermissionsAgree;
    SoundStore(c, t);
    BothEmpty(t, m, f, g);
    SamePolicyOfKey(c, t, m, f, g, key);
    SameMerge(t, m, f, g, key);
    if MatchingPolicies(t, m) != {} && RolePolicies(t, m, key) == {} { SameFirst(c, t, m, f, g, key); }
    RuleFrom(c, PolicyGrants(t, f.policies), PolicyGrants(t, g.policies),
             PermissionGrants(t, f.permissions), PermissionGrants(t, g.permissions), key);
  }

  lemma SameAccess(c: Catalog, t: Tables, m: Member, f: Fetch, g: Fetch)
    requires Inv(c, t) && Answers(t, m, f) && Answers(t, m, g) && Known(t, f) && Known(t, g)
    requires MatchingPolicies(t, m) == {} || PermissionsAgree(t, m)
    ensures AccessOf(c, t, f) == AccessOf(c, t, g)
  {
    hide Inv, Answers, Rule, Access, MatchingPolicies, PermissionsAgree, PolicyGrants, PermissionGrants;
    forall key ensures Lookup(AccessOf(c, t, f), key) == Lookup(AccessOf(c, t, g), key) {
      SameRule(c, t, m, f, g, key);
      AccessIsRule(c, PolicyGrants(t, f.policies), PermissionGrants(t, f.permissions), key);
      AccessIsRule(c, PolicyGrants(t, g.policies), PermissionGrants(t, g.permissions), key);
    }
    SameLookups(AccessOf(c, t, f), AccessOf(c, t, g));
  }

  /** The answer that starts with a permission lets it decide a resource without policy. */
  lemma FirstDecides(c: Catalog, t: Tables, m: Member, p: nat) returns (f: Fetch)
    requires c.Valid() && Inv(c, t) && MatchingPolicies(t, m) != {} && p in MatchingPermissions(t, m)
    requires RolePolicies(t, m, t.permissions.rows[p].resource) == {}
    ensures Answers(t, m, f) && Known(t, f)
    ensures Lookup(AccessOf(c, t, f), t.permissions.rows[p].resource) == Some(t.permissions.rows[p].flags)
  {
    var policies := ListOf(MatchingPolicies(t, m));
    var permissions := ListFrom(MatchingPermissions(t, m), p);
    f := Fetch(policies, permissions);
    var key := t.permissions.rows[p].resource;
    AnswersKnown(t, m, f);
    SoundStore(c, t);
    assert Storable(c, key) && key != "";
    PolicyOfKey(c, t, m, key, f);
    FirstInLineDecides(c, t, m, f);
    ListMeaning(policies, MatchingPolicies(t, m));
    AccessIsRule(c, PolicyGrants(t, f.policies), PermissionGrants(t, f.permissions), key);
    hide Inv, SoundGrants, Answers, LastMatch, FirstMatch, AnyMatch, Access, Storable;
  }

  /** The order never matters exactly when the member has no department-role policy at all, or the matching permissions
      agree on every resource that no policy covers. The order of the policies never matters. */
  lemma OrderFreeIff(c: Catalog, t: Tables, m: Member)
    requires c.Valid() && Inv(c, t)
    ensures OrderFree(c, t, m) <==> MatchingPolicies(t, m) == {} || PermissionsAgree(t, m)
  {
    if MatchingPolicies(t, m) == {} || PermissionsAgree(t, m) {
      hide Inv, Answers, Known, AccessOf, PermissionsAgree;
      forall f, g | Answers(t, m, f) && Answers(t, m, g)
        ensures Known(t, f) && Known(t, g) && AccessOf(c, t, f) == AccessOf(c, t, g)
      {
        AnswersKnown(t, m, f);
        AnswersKnown(t, m, g);
        SameAccess(c, t, m, f, g);
      }
    } else {
      DisagreementShows(c, t, m);
    }
  }

  lemma DisagreementShows(c: Catalog, t: Tables, m: Member)
    requires c.Valid() && Inv(c, t) && MatchingPolicies(t, m) != {} && !PermissionsAgree(t, m)
    ensures !OrderFree(c, t, m)
  {
    var p, q :| p in MatchingPermissions(t, m) && q in MatchingPermissions(t, m)
                && t.permissions.rows[p].resource == t.permissions.rows[q].resource
                && RolePolicies(t, m, t.permissions.rows[p].resource) == {}
                && t.permissions.rows[p].flags != t.permissions.rows[q].flags;
    var f := FirstDecides(c, t, m, p);
    var g := FirstDecides(c, t, m, q);
    hide Inv, Answers, AccessOf;
    assert AccessOf(c, t, f) != AccessOf(c, t, g);
  }

  // ── A store in which it matters ─────────────────────────────────────────

  /** A member with a policy on `other`, and on `key` a project-wide permission to view and one of the member's own
      department that grants nothing. */
  function Disagreeing(key: string, other: string): Tables {
    ScopedFirst(key).(
      departmentRoles := Table(map[1 := DepartmentRole(1, "r")], 2),
      policies := Table(map[1 := Policy(1, other, VIEW_ACCESS)], 2),
      permissions := Table(map[1 := Permission(1, None, key, VIEW_ACCESS), 2 := Permission(1, Some(1), key, NO_ACCESS)], 3),
      members := map[(1, 1) := Member(Some(1), Some(1), Some(1))])
  }

  lemma DisagreeingReached(c: Catalog, key: string, other: string) returns (reqs: seq<Request>)
    requires c.Valid() && Storable(c, key) && Storable(c, other)
    ensures HandleAll(c, EMPTY, reqs) == Disagreeing(key, other)
  {
    hide HandleAll, Handle, Storable;
    var r0 := MemberWithRole(c);
    var t0 := ScopedFirst("").(permissions := EMPTY.permissions);
    HandleAllAppend(c, EMPTY, r0, CreateDepartmentRole(1, "r"));
    DepartmentRoleCreated(c, t0, 1, "r");
    var t1 := t0.(departmentRoles := t0.departmentRoles.Insert(DepartmentRole(1, "r")));
    var r1 := r0 + [CreateDepartmentRole(1, "r")];
    HandleAllAppend(c, EMPTY, r1, SetUserDepartmentRole(1, 1, 1));
    UserDepartmentRoleSet(c, t1, 1, 1, 1);
    var t2 := t1.(members := t1.members[(1, 1) := Member(Some(1), Some(1), Some(1))]);
    var r2 := r1 + [SetUserDepartmentRole(1, 1, 1)];
    HandleAllAppend(c, EMPTY, r2, SetDepartmentRolePolicy(1, other, VIEW_ACCESS));
    PolicySet(c, t2, 1, other, VIEW_ACCESS);
    var t3 := t2.(policies := t2.policies.Insert(Policy(1, other, VIEW_ACCESS)));
    var r3 := r2 + [SetDepartmentRolePolicy(1, other, VIEW_ACCESS)];
    HandleAllAppend(c, EMPTY, r3, SetPermission(1, key, None, VIEW_ACCESS));
    PermissionSet(c, t3, 1, key, None, VIEW_ACCESS);
    var t4 := t3.(permissions := t3.permissions.Insert(Permission(1, None, key, VIEW_ACCESS)));
    var r4 := r3 + [SetPermission(1, key, None, VIEW_ACCESS)];
    HandleAllAppend(c, EMPTY, r4, SetPermission(1, key, Some(1), NO_ACCESS));
    PermissionSet(c, t4, 1, key, Some(1), NO_ACCESS);
    reqs := r4 + [SetPermission(1, key, Some(1), NO_ACCESS)];
    assert t2.members == Disagreeing(key, other).members;
    assert t4.permissions.Insert(Permission(1, Some(1), key, NO_ACCESS)) == Disagreeing(key, other).permissions;
  }

  /** Some member's map depends on the order of the rows. */
  ghost predicate OrderMatters(c: Catalog, t: Tables) {
    exists k :: k in t.members && !OrderFree(c, t, t.members[k])
  }

  /** Ordinary requests lead to such a store, with one permission row for each key. */
  lemma OrderMattersSomewhere(c: Catalog, key: string, other: string)
    requires c.Valid() && Storable(c, key) && Storable(c, other) && key != other
    ensures exists reqs :: OrderMatters(c, HandleAll(c, EMPTY, reqs))
  {
    hide OrderFree, HandleAll, Storable, Inv;
    var reqs := DisagreeingReached(c, key, other);
    HandleAllKeepsInv(c, reqs);
    var t, m := Disagreeing(key, other), Member(Some(1), Some(1), Some(1));
    assert 1 in MatchingPolicies(t, m);
    assert 1 in MatchingPermissions(t, m) && 2 in MatchingPermissions(t, m);
    assert RolePolicies(t, m, key) == {};
    assert t.permissions.rows[1].flags != t.permissions.rows[2].flags;
    OrderFreeIff(c, t, m);
    assert t.members[(1, 1)] == m;
    assert OrderMatters(c, HandleAll(c, EMPTY, reqs));
  }
}
