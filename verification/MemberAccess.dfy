/** The rows a member's access map is built from, and what holds of that map in every reachable store. */
module MemberAccess {
  import opened Wrappers
  import opened Catalog
  import opened Tables
  import opened AccessMap
  import opened Requests

  /** The identifiers of `s`, each once, in whatever order the database returned them. */
  ghost predicate Lists(ids: seq<nat>, s: set<nat>) {
    && (forall p :: p in ids <==> p in s)
    && (forall i, j | 0 <= i < j < |ids| :: ids[i] != ids[j])
  }

  function MatchingPolicies(t: Tables, m: Member): set<nat> {
    set p | p in t.policies.rows && m.departmentRoleId == Some(t.policies.rows[p].departmentRoleId)
  }

  /** Permissions of the member's project role that are project-wide or scoped to the member's department. */
  function MatchingPermissions(t: Tables, m: Member): set<nat> {
    set p | p in t.permissions.rows && m.projectRoleId == Some(t.permissions.rows[p].projectRoleId)
            && (t.permissions.rows[p].departmentId.None? || t.permissions.rows[p].departmentId == m.departmentId)
  }

  /** What the two `findMany` calls of `getAccessMapForProjectUser` answered. */
  datatype Fetch = Fetch(policies: seq<nat>, permissions: seq<nat>)

  ghost predicate Answers(t: Tables, m: Member, f: Fetch) {
    Lists(f.policies, MatchingPolicies(t, m)) && Lists(f.permissions, MatchingPermissions(t, m))
  }

  function PolicyGrants(t: Tables, ids: seq<nat>): seq<Grant>
    requires forall p | p in ids :: p in t.policies.rows
  {
    seq(|ids|, i requires 0 <= i < |ids| => Grant(t.policies.rows[ids[i]].resource, t.policies.rows[ids[i]].flags))
  }

  function PermissionGrants(t: Tables, ids: seq<nat>): seq<Grant>
    requires forall p | p in ids :: p in t.permissions.rows
  {
    seq(|ids|, i requires 0 <= i < |ids| => Grant(t.permissions.rows[ids[i]].resource, t.permissions.rows[ids[i]].flags))
  }

  predicate Known(t: Tables, f: Fetch) {
    (forall p | p in f.policies :: p in t.policies.rows) && (forall p | p in f.permissions :: p in t.permissions.rows)
  }

  lemma AnswersKnown(t: Tables, m: Member, f: Fetch)
    requires Answers(t, m, f)
    ensures Known(t, f)
  {
    forall p | p in f.policies ensures p in t.policies.rows { assert p in MatchingPolicies(t, m); }
    forall p | p in f.permissions ensures p in t.permissions.rows { assert p in MatchingPermissions(t, m); }
  }

  /** The computed access map. */
  function AccessOf(c: Catalog, t: Tables, f: Fetch): map<string, Flags>
    requires Known(t, f)
  {
    Access(c, PolicyGrants(t, f.policies), PermissionGrants(t, f.permissions))
  }

  lemma FetchedRowsAreSound(c: Catalog, t: Tables, f: Fetch)
    requires Known(t, f) && SoundGrants(c, t)
    ensures AllWellFlagged(c, PolicyGrants(t, f.policies)) && AllWellFlagged(c, PermissionGrants(t, f.permissions))
  {
    forall g | g in PolicyGrants(t, f.policies) ensures WellFlagged(c, g.Key(), g.flags) {
      var i :| 0 <= i < |f.policies| && g == PolicyGrants(t, f.policies)[i];
      assert f.policies[i] in t.policies.rows;
    }
    forall g | g in PermissionGrants(t, f.permissions) ensures WellFlagged(c, g.Key(), g.flags) {
      var i :| 0 <= i < |f.permissions| && g == PermissionGrants(t, f.permissions)[i];
      assert f.permissions[i] in t.permissions.rows;
    }
  }

  /** In every store that any interleaving of requests can reach, whatever rows and order the database answers with, no
      member may change a view-only task, and on every other hard-coded task changing implies viewing. */
  lemma EveryAccessMapIsSensible(c: Catalog, events: seq<Event>, k: (nat, nat), f: Fetch)
    requires c.Valid()
    requires var t := Run(c, System(EMPTY, map[]), events).tables; k in t.members && Answers(t, t.members[k], f)
    ensures var t := Run(c, System(EMPTY, map[]), events).tables;
            && Known(t, f)
            && forall key | key in c.hardcoded ::
                 && key in AccessOf(c, t, f)
                 && var flags := AccessOf(c, t, f)[key];
                    if key in c.viewOnly then !flags.canCreate && !flags.canEdit && !flags.canDelete
                    else flags.canCreate || flags.canEdit || flags.canDelete ==> flags.canView
  {
    EmptyIsSound(c);
    RunKeepsInv(c, System(EMPTY, map[]), events);
    var t := Run(c, System(EMPTY, map[]), events).tables;
    AnswersKnown(t, t.members[k], f);
    FetchedRowsAreSound(c, t, f);
    var policies, perms := PolicyGrants(t, f.policies), PermissionGrants(t, f.permissions);
    AccessWellFlagged(c, policies, perms);
    forall key | key in c.hardcoded ensures key in AccessOf(c, t, f) {
      AccessIsRule(c, policies, perms, key);
      HardcodedHasRow(c, policies, perms, key, View);
    }
  }
}
