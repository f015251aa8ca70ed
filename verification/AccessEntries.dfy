/** A member's access map, entry by entry, read off the stored rows. */
module AccessEntries {
  import opened Wrappers
  import opened Text
  import opened Catalog
  import opened Tables
  import opened Statements
  import opened AccessMap
  import opened Requests
  import opened MemberAccess
  import opened PolicyTables
  import opened Guard
  import opened GuardExact
  import opened GuardMirror

  /** Row `p` is a policy of the member's department role. */
  predicate Governs(t: Tables, m: Member, p: nat) {
    p in t.policies.rows && m.departmentRoleId.Some? && t.policies.rows[p].departmentRoleId == m.departmentRoleId.value
  }

  /** Row `p` is a permission of the member's project role, for all departments or for the member's. */
  predicate Applies(t: Tables, m: Member, p: nat) {
    && p in t.permissions.rows
    && m.projectRoleId.Some? && t.permissions.rows[p].projectRoleId == m.projectRoleId.value
    && (t.permissions.rows[p].departmentId.Some? ==>
          m.departmentId.Some? && t.permissions.rows[p].departmentId.value == m.departmentId.value)
  }

  predicate GovernsKey(t: Tables, m: Member, key: string, p: nat) {
    Governs(t, m, p) && t.policies.rows[p].resource == key
  }

  predicate AppliesToKey(t: Tables, m: Member, key: string, p: nat) {
    Applies(t, m, p) && t.permissions.rows[p].resource == key
  }

  ghost predicate HasPolicy(t: Tables, m: Member) {
    exists p :: Governs(t, m, p)
  }

  ghost predicate HasPolicyFor(t: Tables, m: Member, key: string) {
    exists p :: GovernsKey(t, m, key, p)
  }

  ghost predicate HasPermission(t: Tables, m: Member) {
    exists p :: Applies(t, m, p)
  }

  ghost predicate HasPermissionFor(t: Tables, m: Member, key: string) {
    exists p :: AppliesToKey(t, m, key, p)
  }

  /** The flags of one of the permissions that apply to the key. */
  ghost predicate OneOf(t: Tables, m: Member, key: string, flags: Flags) {
    exists p :: AppliesToKey(t, m, key, p) && t.permissions.rows[p].flags == flags
  }

  /** A flag is set exactly when some permission that applies to the key sets it. */
  ghost predicate Merged(t: Tables, m: Member, key: string, flags: Flags) {
    && (flags.canView <==> exists p :: AppliesToKey(t, m, key, p) && t.permissions.rows[p].flags.canView)
    && (flags.canCreate <==> exists p :: AppliesToKey(t, m, key, p) && t.permissions.rows[p].flags.canCreate)
    && (flags.canEdit <==> exists p :: AppliesToKey(t, m, key, p) && t.permissions.rows[p].flags.canEdit)
    && (flags.canDelete <==> exists p :: AppliesToKey(t, m, key, p) && t.permissions.rows[p].flags.canDelete)
  }

  /** Every entry of a member's map. A policy of the department role for the key decides alone. A key the department role
      leaves open goes by one of the permissions that apply to it, or, if the department role has no policy at all, by all of
      them merged. A key nothing speaks of can be viewed if it is a default and the member has no row at all; otherwise it is
      denied, spelled out for a hard-coded task. */
  lemma EntryMeaning(c: Catalog, t: Tables, m: Member, key: string, f: Fetch)
    requires c.Valid() && Inv(c, t) && key != "" && Answers(t, m, f)
    ensures Known(t, f)
    ensures var access := AccessOf(c, t, f);
            && (forall p | GovernsKey(t, m, key, p) :: key in access && access[key] == t.policies.rows[p].flags)
            && (!HasPolicyFor(t, m, key) && HasPermissionFor(t, m, key) ==>
                  key in access
                  && if HasPolicy(t, m) then OneOf(t, m, key, access[key]) else Merged(t, m, key, access[key]))
            && (!HasPolicyFor(t, m, key) && !HasPermissionFor(t, m, key) ==>
                  if !HasPolicy(t, m) && !HasPermission(t, m) && key in c.defaults then
                    key in access && access[key] == Flags(true, false, false, false)
                  else if key in c.hardcoded then key in access && access[key] == Flags(false, false, false, false)
                  else key !in access)
  {
    EntryRule(c, t, m, key, f);
    PoliciesSpeak(c, t, m, key, f);
    PermissionsSpeak(c, t, m, key, f);
    hide AccessOf, Inv, Answers, LastMatch, FirstMatch, AnyMatch, Merged, OneOf, HasPolicy, HasPolicyFor, HasPermission,
        HasPermissionFor;
    forall p | GovernsKey(t, m, key, p) ensures HasPolicyFor(t, m, key) { PolicyThere(t, m, key, p); }
  }

  lemma PolicyThere(t: Tables, m: Member, key: string, p: nat)
    requires GovernsKey(t, m, key, p)
    ensures HasPolicyFor(t, m, key) && HasPolicy(t, m)
  {
  }

  lemma EntryRule(c: Catalog, t: Tables, m: Member, key: string, f: Fetch)
    requires Answers(t, m, f)
    ensures Known(t, f)
    ensures Lookup(AccessOf(c, t, f), key) == Rule(c, PolicyGrants(t, f.policies), PermissionGrants(t, f.permissions), key)
  {
    AnswersKnown(t, m, f);
    AccessIsRule(c, PolicyGrants(t, f.policies), PermissionGrants(t, f.permissions), key);
    hide Access, Rule;
  }

  lemma PoliciesSpeak(c: Catalog, t: Tables, m: Member, key: string, f: Fetch)
    requires Inv(c, t) && Answers(t, m, f) && Known(t, f)
    ensures var policies := PolicyGrants(t, f.policies);
            && (policies != [] <==> HasPolicy(t, m))
            && (LastMatch(policies, key).Some? <==> HasPolicyFor(t, m, key))
            && (forall p | GovernsKey(t, m, key, p) :: LastMatch(policies, key) == Some(t.policies.rows[p].flags))
  {
    PolicyOfKey(c, t, m, key, f);
    NoneListed(t, m, f);
    hide Inv, LastMatch, Answers;
    assert forall p :: Governs(t, m, p) <==> p in MatchingPolicies(t, m);
    assert forall p :: GovernsKey(t, m, key, p) <==> p in RolePolicies(t, m, key);
    if p :| p in RolePolicies(t, m, key) { assert GovernsKey(t, m, key, p); }
    if p :| p in MatchingPolicies(t, m) { assert Governs(t, m, p); }
  }

  lemma PermissionsSpeak(c: Catalog, t: Tables, m: Member, key: string, f: Fetch)
    requires Inv(c, t) && Answers(t, m, f) && Known(t, f)
    ensures var perms := PermissionGrants(t, f.permissions);
            && (perms != [] <==> HasPermission(t, m))
            && (FirstMatch(perms, key).Some? <==> HasPermissionFor(t, m, key))
            && (FirstMatch(perms, key).Some? ==> OneOf(t, m, key, FirstMatch(perms, key).value))
            && (AnyMatch(perms, key).Some? <==> HasPermissionFor(t, m, key))
            && (AnyMatch(perms, key).Some? ==> Merged(t, m, key, AnyMatch(perms, key).value))
  {
    SoundStore(c, t);
    MatchesApply(t, m, key);
    FirstSpeaks(c, t, m, key, f);
    MergedSpeaks(c, t, m, key, f);
    hide Inv, SoundGrants, FirstMatch, AnyMatch, HasPermission, HasPermissionFor, OneOf, Merged, Answers, Known;
  }

  lemma MatchesApply(t: Tables, m: Member, key: string)
    ensures forall p :: Applies(t, m, p) <==> p in MatchingPermissions(t, m)
    ensures forall p :: AppliesToKey(t, m, key, p) <==> MatchesKey(t, m, key, p)
  {
  }

  lemma FirstSpeaks(c: Catalog, t: Tables, m: Member, key: string, f: Fetch)
    requires SoundGrants(c, t) && Answers(t, m, f) && Known(t, f)
    ensures var perms := PermissionGrants(t, f.permissions);
            && (perms != [] <==> HasPermission(t, m))
            && (FirstMatch(perms, key).Some? <==> HasPermissionFor(t, m, key))
            && (FirstMatch(perms, key).Some? ==> OneOf(t, m, key, FirstMatch(perms, key).value))
  {
    MatchesApply(t, m, key);
    FirstOfKey(c, t, m, key, f);
    var perms := PermissionGrants(t, f.permissions);
    if perms != [] { FirstInLineDecides(c, t, m, f); assert Applies(t, m, f.permissions[0]); }
    hide SoundGrants, FirstMatch, Applies, MatchingPermissions;
    if p :| Applies(t, m, p) {
      var i := InAnswer(t, m, f, p);
    }
  }

  lemma MergedSpeaks(c: Catalog, t: Tables, m: Member, key: string, f: Fetch)
    requires SoundGrants(c, t) && Answers(t, m, f) && Known(t, f)
    ensures var perms := PermissionGrants(t, f.permissions);
            && (AnyMatch(perms, key).Some? <==> HasPermissionFor(t, m, key))
            && (AnyMatch(perms, key).Some? ==> Merged(t, m, key, AnyMatch(perms, key).value))
  {
    var perms := PermissionGrants(t, f.permissions);
    FirstSpeaks(c, t, m, key, f);
    FirstMatchMeaning(perms, key);
    AnyMatchMeaning(perms, key, View);
    MergeAllowsIff(c, t, m, key, View, f);
    MergeAllowsIff(c, t, m, key, Create, f);
    MergeAllowsIff(c, t, m, key, Edit, f);
    MergeAllowsIff(c, t, m, key, Delete, f);
    hide SoundGrants, Answers, FirstMatch, AnyMatch, HasPermissionFor, OneOf, Normalize, Merged, SomeRowAllows;
    if AnyMatch(perms, key).Some? { MergedIs(t, m, key, AnyMatch(perms, key).value); }
  }

  lemma MergedIs(t: Tables, m: Member, key: string, flags: Flags)
    requires flags.Allows(View) <==> SomeRowAllows(t, m, key, View)
    requires flags.Allows(Create) <==> SomeRowAllows(t, m, key, Create)
    requires flags.Allows(Edit) <==> SomeRowAllows(t, m, key, Edit)
    requires flags.Allows(Delete) <==> SomeRowAllows(t, m, key, Delete)
    ensures Merged(t, m, key, flags)
  {
    SomeRowSets(t, m, key);
    hide SomeRowAllows, AppliesToKey;
  }

  lemma SomeRowSets(t: Tables, m: Member, key: string)
    ensures SomeRowAllows(t, m, key, View) <==> exists p :: AppliesToKey(t, m, key, p) && t.permissions.rows[p].flags.canView
    ensures SomeRowAllows(t, m, key, Create) <==>
              exists p :: AppliesToKey(t, m, key, p) && t.permissions.rows[p].flags.canCreate
    ensures SomeRowAllows(t, m, key, Edit) <==> exists p :: AppliesToKey(t, m, key, p) && t.permissions.rows[p].flags.canEdit
    ensures SomeRowAllows(t, m, key, Delete) <==>
              exists p :: AppliesToKey(t, m, key, p) && t.permissions.rows[p].flags.canDelete
  {
    MatchesApply(t, m, key);
    hide Applies, MatchingPermissions;
  }
}
