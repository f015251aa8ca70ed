/** The access map: the loops that fill it, the pointwise rule they compute, and what can be read off it. */
module AccessMap {
  import opened Wrappers
  import opened Text
  import opened Catalog

  /** The part of a policy or permission row the map reads. */
  datatype Grant = Grant(resource: string, flags: Flags) {
    function Key(): string { Normalize(resource) }
  }

  function Lookup(m: map<string, Flags>, key: string): Option<Flags> {
    if key in m then Some(m[key]) else None
  }

  // ── The pointwise rule ──────────────────────────────────────────────────

  function FirstMatch(rows: seq<Grant>, key: string): Option<Flags> {
    if rows == [] then None else
    var rest, last := rows[..|rows| - 1], rows[|rows| - 1];
    if FirstMatch(rest, key).Some? then FirstMatch(rest, key)
    else if last.Key() == key then Some(last.flags) else None
  }

  function LastMatch(rows: seq<Grant>, key: string): Option<Flags> {
    if rows == [] then None else
    var rest, last := rows[..|rows| - 1], rows[|rows| - 1];
    if last.Key() == key then Some(last.flags) else LastMatch(rest, key)
  }

  function AnyMatch(rows: seq<Grant>, key: string): Option<Flags> {
    if rows == [] then None else
    var rest, last := rows[..|rows| - 1], rows[|rows| - 1];
    if last.Key() != key then AnyMatch(rest, key)
    else match AnyMatch(rest, key)
         case None => Some(last.flags)
         case Some(f) => Some(f.Or(last.flags))
  }

  /** What the rows alone say about a key: the department-role policy, else the first permission when there are
      policies, else the disjunction of all permissions. */
  function Granted(policies: seq<Grant>, perms: seq<Grant>, key: string): Option<Flags> {
    if key == "" then None
    else if policies == [] then AnyMatch(perms, key)
    else if LastMatch(policies, key).Some? then LastMatch(policies, key)
    else FirstMatch(perms, key)
  }

  /** The rule: what the rows grant; else viewing of a default resource when there is no row at all; else nothing,
      spelled out as a row of its own for each hard-coded task. */
  function Rule(c: Catalog, policies: seq<Grant>, perms: seq<Grant>, key: string): Option<Flags> {
    if Granted(policies, perms, key).Some? then Granted(policies, perms, key)
    else if policies == [] && perms == [] && key in c.defaults then Some(VIEW_ACCESS)
    else if key in c.hardcoded then Some(NO_ACCESS)
    else None
  }

  /** The keys a map over these rows can have. */
  function Keys(c: Catalog, policies: seq<Grant>, perms: seq<Grant>): set<string> {
    (set g | g in policies + perms :: g.Key()) + (set s | s in c.defaults + c.hardcoded)
  }

  /** The rule as a finite map. */
  function Access(c: Catalog, policies: seq<Grant>, perms: seq<Grant>): map<string, Flags> {
    map key | key in Keys(c, policies, perms) && Rule(c, policies, perms, key).Some? ::
      Rule(c, policies, perms, key).value
  }

  /** One more row at the end. */
  lemma Snoc(rows: seq<Grant>, g: Grant)
    ensures forall key :: LastMatch(rows + [g], key) == if g.Key() == key then Some(g.flags) else LastMatch(rows, key)
    ensures forall key :: FirstMatch(rows + [g], key) ==
                            if FirstMatch(rows, key).Some? then FirstMatch(rows, key)
                            else if g.Key() == key then Some(g.flags) else None
    ensures forall key :: AnyMatch(rows + [g], key) ==
                            if g.Key() != key then AnyMatch(rows, key)
                            else if AnyMatch(rows, key).None? then Some(g.flags)
                            else Some(AnyMatch(rows, key).value.Or(g.flags))
  {
    assert (rows + [g])[..|rows|] == rows;
  }

  // ── The rule, read declaratively ────────────────────────────────────────

  /** Row `i` is the first, or the last, with the key. */
  predicate FirstAt(rows: seq<Grant>, key: string, i: nat) {
    i < |rows| && rows[i].Key() == key && forall j | 0 <= j < i :: rows[j].Key() != key
  }

  predicate LastAt(rows: seq<Grant>, key: string, i: nat) {
    i < |rows| && rows[i].Key() == key && forall j | i < j < |rows| :: rows[j].Key() != key
  }

  lemma {:induction false} FirstMatchMeaning(rows: seq<Grant>, key: string)
    ensures FirstMatch(rows, key).None? <==> forall g | g in rows :: g.Key() != key
    ensures FirstMatch(rows, key).Some? ==>
              exists i: nat :: FirstAt(rows, key, i) && FirstMatch(rows, key) == Some(rows[i].flags)
  {
    hide Normalize;
    if rows != [] {
      var n := |rows| - 1;
      var rest := rows[..n];
      FirstMatchMeaning(rest, key);
      assert rows == rest + [rows[n]];
      if FirstMatch(rest, key).Some? {
        var i: nat :| FirstAt(rest, key, i) && FirstMatch(rest, key) == Some(rest[i].flags);
        assert FirstAt(rows, key, i);
      } else if rows[n].Key() == key {
        forall j | 0 <= j < n ensures rows[j].Key() != key { assert rows[j] in rest; }
        assert FirstAt(rows, key, n);
      }
    }
  }

  lemma {:induction false} LastMatchMeaning(rows: seq<Grant>, key: string)
    ensures LastMatch(rows, key).None? <==> forall g | g in rows :: g.Key() != key
    ensures LastMatch(rows, key).Some? ==>
              exists i: nat :: LastAt(rows, key, i) && LastMatch(rows, key) == Some(rows[i].flags)
  {
    hide Normalize;
    if rows != [] {
      var n := |rows| - 1;
      var rest := rows[..n];
      LastMatchMeaning(rest, key);
      assert rows == rest + [rows[n]];
      if rows[n].Key() == key {
        assert LastAt(rows, key, n);
      } else if LastMatch(rest, key).Some? {
        var i: nat :| LastAt(rest, key, i) && LastMatch(rest, key) == Some(rest[i].flags);
        assert LastAt(rows, key, i);
      }
    }
  }

  /** Merging grants an action exactly when some row for the key grants it. */
  lemma {:induction false} AnyMatchMeaning(rows: seq<Grant>, key: string, a: Action)
    ensures AnyMatch(rows, key).None? <==> forall g | g in rows :: g.Key() != key
    ensures (AnyMatch(rows, key).Some? && AnyMatch(rows, key).value.Allows(a))
            <==> exists g :: g in rows && g.Key() == key && g.flags.Allows(a)
  {
    if rows != [] {
      var rest, last := rows[..|rows| - 1], rows[|rows| - 1];
      AnyMatchMeaning(rest, key, a);
      assert rows == rest + [last];
      if AnyMatch(rows, key).Some? && AnyMatch(rows, key).value.Allows(a) && !(last.Key() == key && last.flags.Allows(a)) {
        assert AnyMatch(rest, key).Some? && AnyMatch(rest, key).value.Allows(a);
      }
    }
  }

  lemma FlagsByAction(f: Flags, g: Flags)
    requires forall a: Action :: f.Allows(a) == g.Allows(a)
    ensures f == g
  {
    assert f.Allows(View) == g.Allows(View) && f.Allows(Create) == g.Allows(Create);
    assert f.Allows(Edit) == g.Allows(Edit) && f.Allows(Delete) == g.Allows(Delete);
  }

  /** The finite map is the rule at every key. */
  lemma AccessIsRule(c: Catalog, policies: seq<Grant>, perms: seq<Grant>, key: string)
    ensures Lookup(Access(c, policies, perms), key) == Rule(c, policies, perms, key)
  {
    FirstMatchMeaning(perms, key);
    LastMatchMeaning(policies, key);
    AnyMatchMeaning(perms, key, View);
    if Rule(c, policies, perms, key).Some? && key !in c.defaults + c.hardcoded {
      assert exists g :: g in policies + perms && g.Key() == key;
    }
  }

  // ── Order of the rows ───────────────────────────────────────────────────

  lemma SameRows(a: seq<Grant>, b: seq<Grant>)
    requires multiset(a) == multiset(b)
    ensures |a| == |b| && forall g :: g in a <==> g in b
  {
    assert |multiset(a)| == |a| && |multiset(b)| == |b|;
    forall g ensures g in a <==> g in b { assert g in multiset(a) <==> g in multiset(b); }
  }

  lemma AnyMatchIgnoresOrder(a: seq<Grant>, b: seq<Grant>, key: string)
    requires forall g :: g in a <==> g in b
    ensures AnyMatch(a, key) == AnyMatch(b, key)
  {
    AnyMatchMeaning(a, key, View);
    AnyMatchMeaning(b, key, View);
    if AnyMatch(a, key).Some? {
      forall x: Action ensures AnyMatch(a, key).value.Allows(x) == AnyMatch(b, key).value.Allows(x) {
        AnyMatchMeaning(a, key, x);
        AnyMatchMeaning(b, key, x);
      }
      FlagsByAction(AnyMatch(a, key).value, AnyMatch(b, key).value);
    }
  }

  /** Without department-role policies the map does not depend on the order of the permission rows. */
  lemma MergeIgnoresOrder(c: Catalog, perms: seq<Grant>, perms': seq<Grant>)
    requires multiset(perms) == multiset(perms')
    ensures Access(c, [], perms) == Access(c, [], perms')
  {
    SameRows(perms, perms');
    forall key ensures Lookup(Access(c, [], perms), key) == Lookup(Access(c, [], perms'), key) {
      AccessIsRule(c, [], perms, key);
      AccessIsRule(c, [], perms', key);
      AnyMatchIgnoresOrder(perms, perms', key);
    }
    SameLookups(Access(c, [], perms), Access(c, [], perms'));
  }

  lemma SameLookups(m: map<string, Flags>, m': map<string, Flags>)
    requires forall key :: Lookup(m, key) == Lookup(m', key)
    ensures m == m'
  {
    forall key ensures key in m <==> key in m' { assert Lookup(m, key) == Lookup(m', key); }
    forall key | key in m ensures m[key] == m'[key] { assert Lookup(m, key) == Lookup(m', key); }
  }

  /** The rows that fill a key no policy defines all carry the same flags. */
  ghost predicate Agreeing(policies: seq<Grant>, perms: seq<Grant>) {
    forall g, h | g in perms && h in perms && g.Key() == h.Key() != "" && (forall p | p in policies :: p.Key() != g.Key()) ::
      g.flags == h.flags
  }

  lemma FirstMatchAgrees(perms: seq<Grant>, perms': seq<Grant>, key: string)
    requires forall g :: g in perms <==> g in perms'
    requires forall g, h | g in perms && h in perms && g.Key() == h.Key() == key :: g.flags == h.flags
    ensures FirstMatch(perms, key) == FirstMatch(perms', key)
  {
    FirstMatchMeaning(perms, key);
    FirstMatchMeaning(perms', key);
  }

  /** With policies the map is independent of the order of the permission rows exactly when the rows that share an
      undefined key agree. A project-wide and a departmental row can share one; `AccessOrder` says when they do. */
  lemma FallbackIgnoresOrderIff(c: Catalog, policies: seq<Grant>, perms: seq<Grant>)
    requires policies != []
    ensures (forall perms' | multiset(perms') == multiset(perms) ::
              Access(c, policies, perms') == Access(c, policies, perms))
            <==> Agreeing(policies, perms)
  {
    if Agreeing(policies, perms) {
      forall perms' | multiset(perms') == multiset(perms) ensures Access(c, policies, perms') == Access(c, policies, perms) {
        AgreeingIgnoresOrder(c, policies, perms, perms');
      }
    }
    if forall perms' | multiset(perms') == multiset(perms) :: Access(c, policies, perms') == Access(c, policies, perms) {
      forall g, h | g in perms && h in perms && g.Key() == h.Key() != "" && (forall p | p in policies :: p.Key() != g.Key())
        ensures g.flags == h.flags
      {
        PulledToFront(c, policies, perms, g);
        PulledToFront(c, policies, perms, h);
      }
    }
  }

  lemma AgreeingIgnoresOrder(c: Catalog, policies: seq<Grant>, perms: seq<Grant>, perms': seq<Grant>)
    requires policies != [] && multiset(perms') == multiset(perms) && Agreeing(policies, perms)
    ensures Access(c, policies, perms') == Access(c, policies, perms)
  {
    SameRows(perms', perms);
    forall key ensures Lookup(Access(c, policies, perms'), key) == Lookup(Access(c, policies, perms), key) {
      AccessIsRule(c, policies, perms, key);
      AccessIsRule(c, policies, perms', key);
      LastMatchMeaning(policies, key);
      if LastMatch(policies, key).None? && key != "" { FirstMatchAgrees(perms, perms', key); }
    }
    SameLookups(Access(c, policies, perms'), Access(c, policies, perms));
  }

  /** Some order of the rows lets a given row decide its undefined key. */
  lemma PulledToFront(c: Catalog, policies: seq<Grant>, perms: seq<Grant>, g: Grant)
    requires policies != [] && g in perms && g.Key() != "" && forall p | p in policies :: p.Key() != g.Key()
    ensures exists perms' :: multiset(perms') == multiset(perms)
              && Lookup(Access(c, policies, perms'), g.Key()) == Some(g.flags)
  {
    hide FirstMatch, LastMatch, AnyMatch, Access, Normalize;
    var i :| 0 <= i < |perms| && perms[i] == g;
    var rest := perms[..i] + perms[i + 1..];
    var perms' := [g] + rest;
    assert multiset(perms') == multiset(perms) by { MovedToFront(perms, i); }
    FirstMatchOfFront(g, rest);
    LastMatchMeaning(policies, g.Key());
    AccessIsRule(c, policies, perms', g.Key());
  }

  lemma MovedToFront(perms: seq<Grant>, i: nat)
    requires i < |perms|
    ensures multiset([perms[i]] + (perms[..i] + perms[i + 1..])) == multiset(perms)
  {
    assert perms == perms[..i] + ([perms[i]] + perms[i + 1..]);
  }

  lemma FirstMatchOfFront(g: Grant, rest: seq<Grant>)
    ensures FirstMatch([g] + rest, g.Key()) == Some(g.flags)
  {
    FirstMatchMeaning([g] + rest, g.Key());
    assert ([g] + rest)[0] == g && ([g] + rest)[0] in [g] + rest;
  }

  // ── Flags that stay sensible ────────────────────────────────────────────

  ghost predicate AllWellFlagged(c: Catalog, rows: seq<Grant>) {
    forall g | g in rows :: WellFlagged(c, g.Key(), g.flags)
  }

  /** Overriding, falling back, merging, defaulting and filling keep flags sensible. */
  lemma AccessWellFlagged(c: Catalog, policies: seq<Grant>, perms: seq<Grant>)
    requires AllWellFlagged(c, policies) && AllWellFlagged(c, perms)
    ensures forall key | key in Access(c, policies, perms) :: WellFlagged(c, key, Access(c, policies, perms)[key])
  {
    forall key | key in Access(c, policies, perms) ensures WellFlagged(c, key, Access(c, policies, perms)[key]) {
      AccessIsRule(c, policies, perms, key);
      FirstMatchMeaning(perms, key);
      LastMatchMeaning(policies, key);
      AnyMatchWellFlagged(c, perms, key);
    }
  }

  lemma {:induction false} AnyMatchWellFlagged(c: Catalog, rows: seq<Grant>, key: string)
    requires AllWellFlagged(c, rows)
    ensures AnyMatch(rows, key).Some? ==> WellFlagged(c, key, AnyMatch(rows, key).value)
  {
    if rows != [] {
      assert rows == rows[..|rows| - 1] + [rows[|rows| - 1]];
      AnyMatchWellFlagged(c, rows[..|rows| - 1], key);
    }
  }

  // ── Reading the map ─────────────────────────────────────────────────────

  /** `canAccess`. */
  predicate CanAccess(m: map<string, Flags>, resource: string, a: Action) {
    Normalize(resource) in m && m[Normalize(resource)].Allows(a)
  }

  /** `hasPolicyForAnyResource`. */
  predicate HasPolicyForAnyResource(m: map<string, Flags>, resources: seq<string>) {
    exists i :: 0 <= i < |resources| && Normalize(resources[i]) in m
  }

  /** `canPerformTaskResourceAction`. */
  predicate CanPerform(m: map<string, Flags>, resource: string, a: Action) {
    var normalized := if Normalize(resource) == "" then "TASK" else Normalize(resource);
    if normalized == "TASK" then CanAccess(m, "TASK", a)
    else if HasPolicyForAnyResource(m, [normalized]) then CanAccess(m, normalized, a)
    else CanAccess(m, "TASK", a)
  }

  /** The map after an administrator changes what TASK grants. */
  function WithTask(m: map<string, Flags>, f: Flags): map<string, Flags> {
    m["TASK" := f]
  }

  lemma TaskIsNormal()
    ensures Normalize("TASK") == "TASK"
  {
    assert forall c | c in "TASK" :: UpperChar(c) == c;
    NormalizeMeaning("TASK");
  }

  /** The decision is the resource's own row when it has one, and the generic TASK row otherwise. */
  lemma CanPerformMeaning(m: map<string, Flags>, resource: string, a: Action)
    ensures var key := Normalize(resource);
            CanPerform(m, resource, a) ==
            if key != "" && key in m then m[key].Allows(a) else "TASK" in m && m["TASK"].Allows(a)
  {
    TaskIsNormal();
    NormalizeMeaning(resource);
    var key := Normalize(resource);
    NormalizeMeaning(key);
    assert HasPolicyForAnyResource(m, [key]) <==> key in m by {
      assert [key][0] == key;
    }
  }

  /** What TASK grants can change no decision exactly for a resource, other than TASK, with a row of its own. */
  lemma TaskRowIrrelevantIff(m: map<string, Flags>, resource: string, a: Action)
    ensures (forall f: Flags :: CanPerform(WithTask(m, f), resource, a) == CanPerform(WithTask(m, NO_ACCESS), resource, a))
            <==> (Normalize(resource) != "" && Normalize(resource) != "TASK" && Normalize(resource) in m)
  {
    var key := Normalize(resource);
    var all := Flags(true, true, true, true);
    CanPerformMeaning(WithTask(m, NO_ACCESS), resource, a);
    if key != "" && key != "TASK" && key in m {
      forall f: Flags ensures CanPerform(WithTask(m, f), resource, a) == CanPerform(WithTask(m, NO_ACCESS), resource, a) {
        CanPerformMeaning(WithTask(m, f), resource, a);
      }
    } else {
      CanPerformMeaning(WithTask(m, all), resource, a);
      assert CanPerform(WithTask(m, all), resource, a) && !CanPerform(WithTask(m, NO_ACCESS), resource, a);
    }
  }

  /** Some row for the key grants the action. */
  ghost predicate SomeRowGrants(rows: seq<Grant>, key: string, a: Action) {
    exists g :: g in rows && g.Key() == key && g.flags.Allows(a)
  }

  lemma GrantedBySomeRow(policies: seq<Grant>, perms: seq<Grant>, key: string, a: Action)
    requires Granted(policies, perms, key).Some? && Granted(policies, perms, key).value.Allows(a)
    ensures SomeRowGrants(policies + perms, key, a)
  {
    FirstMatchMeaning(perms, key);
    LastMatchMeaning(policies, key);
    AnyMatchMeaning(perms, key, a);
    var g :| (g in policies || g in perms) && g.Key() == key && g.flags.Allows(a);
    assert g in policies + perms;
  }

  /** A hard-coded task always has a row of its own, and one that grants something comes from a stored row. */
  lemma HardcodedHasRow(c: Catalog, policies: seq<Grant>, perms: seq<Grant>, key: string, a: Action)
    requires c.Valid() && key in c.hardcoded
    ensures key != "" && key != "TASK" && Rule(c, policies, perms, key).Some?
    ensures Rule(c, policies, perms, key).value.Allows(a) ==> SomeRowGrants(policies + perms, key, a)
  {
    assert c.Allowed(key);
    if Rule(c, policies, perms, key).value.Allows(a) {
      GrantedBySomeRow(policies, perms, key, a);
    }
  }

  /** On a computed map a hard-coded task is decided by its own row, which some stored row must grant, whatever
      TASK grants. */
  lemma HardcodedNeverFallsBack(c: Catalog, policies: seq<Grant>, perms: seq<Grant>, resource: string, a: Action)
    requires c.Valid() && Normalize(resource) in c.hardcoded
    ensures var m, key := Access(c, policies, perms), Normalize(resource);
            && key in m
            && (CanPerform(m, resource, a) <==> m[key].Allows(a))
            && (CanPerform(m, resource, a) ==> SomeRowGrants(policies + perms, key, a))
            && forall f: Flags :: CanPerform(WithTask(m, f), resource, a) == CanPerform(m, resource, a)
  {
    var m, key := Access(c, policies, perms), Normalize(resource);
    HardcodedHasRow(c, policies, perms, key, a);
    AccessIsRule(c, policies, perms, key);
    CanPerformMeaning(m, resource, a);
    forall f: Flags ensures CanPerform(WithTask(m, f), resource, a) == CanPerform(m, resource, a) {
      CanPerformMeaning(WithTask(m, f), resource, a);
    }
  }

  /** Any other resource is decided by TASK exactly when no row, and no default, speaks of it. */
  lemma OthersFallBackIff(c: Catalog, policies: seq<Grant>, perms: seq<Grant>, resource: string, a: Action)
    requires Normalize(resource) !in c.hardcoded && Normalize(resource) != "" && Normalize(resource) != "TASK"
    ensures var m, key := Access(c, policies, perms), Normalize(resource);
            (forall f: Flags :: CanPerform(WithTask(m, f), resource, a) == f.Allows(a))
            <==> (forall g | g in policies + perms :: g.Key() != key) && !(policies == [] && perms == [] && key in c.defaults)
  {
    var m, key := Access(c, policies, perms), Normalize(resource);
    AccessIsRule(c, policies, perms, key);
    FirstMatchMeaning(perms, key);
    LastMatchMeaning(policies, key);
    AnyMatchMeaning(perms, key, a);
    assert (forall g | g in policies + perms :: g.Key() != key) <==>
           (forall g | g in policies :: g.Key() != key) && (forall g | g in perms :: g.Key() != key);
    var all := Flags(true, true, true, true);
    forall f: Flags ensures CanPerform(WithTask(m, f), resource, a) == if key in m then m[key].Allows(a) else f.Allows(a) {
      CanPerformMeaning(WithTask(m, f), resource, a);
    }
    if key in m {
      assert CanPerform(WithTask(m, all), resource, a) == CanPerform(WithTask(m, NO_ACCESS), resource, a);
    }
  }

  // ── The object the service fills in place ───────────────────────────────

  class AccessMap {
    var entries: map<string, Flags>

    constructor ()
      ensures entries == map[]
    {
      entries := map[];
    }

    /** `setAccess`: an empty key is ignored. */
    method SetAccess(resource: string, flags: Flags)
      modifies this
      ensures forall key :: Lookup(entries, key) ==
                if key == Normalize(resource) != "" then Some(flags) else Lookup(old(entries), key)
    {
      var key := Normalize(resource);
      if key == "" { return; }
      entries := entries[key := flags];
    }

    /** `mergeAccess`. */
    method MergeAccess(resource: string, flags: Flags)
      modifies this
      ensures forall key :: Lookup(entries, key) ==
                if key == Normalize(resource) != "" then
                  Some(if key in old(entries) then old(entries)[key].Or(flags) else flags)
                else Lookup(old(entries), key)
    {
      var key := Normalize(resource);
      if key == "" { return; }
      if key !in entries { entries := entries[key := NO_ACCESS]; }
      entries := entries[key := entries[key].Or(flags)];
    }
  }

  /** First loop: the department-role policies override one another. */
  method OverrideWithPolicies(m: AccessMap, policies: seq<Grant>)
    requires m.entries == map[]
    modifies m
    ensures forall key :: Lookup(m.entries, key) == if key == "" then None else LastMatch(policies, key)
  {
    for i := 0 to |policies|
      invariant forall key :: Lookup(m.entries, key) == if key == "" then None else LastMatch(policies[..i], key)
    {
      Snoc(policies[..i], policies[i]);
      assert policies[..i + 1] == policies[..i] + [policies[i]];
      m.SetAccess(policies[i].resource, policies[i].flags);
    }
    assert policies[..|policies|] == policies;
  }

  /** Second loop: a permission fills a key only while it is still open. */
  method FallBackOnPermissions(m: AccessMap, ghost policies: seq<Grant>, perms: seq<Grant>)
    requires policies != [] && forall key :: Lookup(m.entries, key) == if key == "" then None else LastMatch(policies, key)
    modifies m
    ensures forall key :: Lookup(m.entries, key) == Granted(policies, perms, key)
  {
    for i := 0 to |perms|
      invariant forall key :: Lookup(m.entries, key) == Granted(policies, perms[..i], key)
    {
      Snoc(perms[..i], perms[i]);
      assert perms[..i + 1] == perms[..i] + [perms[i]];
      assert Lookup(m.entries, perms[i].Key()) == Granted(policies, perms[..i], perms[i].Key());
      if Normalize(perms[i].resource) !in m.entries {
        m.SetAccess(perms[i].resource, perms[i].flags);
      }
    }
    assert perms[..|perms|] == perms;
  }

  /** The other branch: all permissions are merged. */
  method MergePermissions(m: AccessMap, perms: seq<Grant>)
    requires m.entries == map[]
    modifies m
    ensures forall key :: Lookup(m.entries, key) == Granted([], perms, key)
  {
    for i := 0 to |perms|
      invariant forall key :: Lookup(m.entries, key) == Granted([], perms[..i], key)
    {
      Snoc(perms[..i], perms[i]);
      assert perms[..i + 1] == perms[..i] + [perms[i]];
      assert Lookup(m.entries, perms[i].Key()) == Granted([], perms[..i], perms[i].Key());
      m.MergeAccess(perms[i].resource, perms[i].flags);
    }
    assert perms[..|perms|] == perms;
  }

  method AddDefaults(c: Catalog, m: AccessMap)
    requires c.Valid() && m.entries == map[]
    modifies m
    ensures forall key :: Lookup(m.entries, key) == if key in c.defaults then Some(VIEW_ACCESS) else None
  {
    for i := 0 to |c.defaults|
      invariant forall key :: Lookup(m.entries, key) == if key in c.defaults[..i] then Some(VIEW_ACCESS) else None
    {
      assert c.Allowed(c.defaults[i]);
      NormalizeMeaning(c.defaults[i]);
      assert c.defaults[..i + 1] == c.defaults[..i] + [c.defaults[i]];
      assert Lookup(m.entries, c.defaults[i]) == if c.defaults[i] in c.defaults[..i] then Some(VIEW_ACCESS) else None;
      m.MergeAccess(c.defaults[i], VIEW_ACCESS);
    }
    assert c.defaults[..|c.defaults|] == c.defaults;
  }

  /** Last loop: a hard-coded task without a row gets one that grants nothing. */
  method FillHardcoded(c: Catalog, m: AccessMap)
    requires c.Valid()
    modifies m
    ensures forall key :: Lookup(m.entries, key) ==
              if key in old(m.entries) then Some(old(m.entries)[key]) else if key in c.hardcoded then Some(NO_ACCESS)
                  else None
  {
    for i := 0 to |c.hardcoded|
      invariant forall key :: Lookup(m.entries, key) ==
                  if key in old(m.entries) then Some(old(m.entries)[key])
                  else if key in c.hardcoded[..i] then Some(NO_ACCESS) else None
    {
      assert c.Allowed(c.hardcoded[i]);
      NormalizeMeaning(c.hardcoded[i]);
      assert c.hardcoded[..i + 1] == c.hardcoded[..i] + [c.hardcoded[i]];
      assert Lookup(m.entries, c.hardcoded[i]).None? ==> c.hardcoded[i] !in old(m.entries);
      if c.hardcoded[i] !in m.entries {
        m.SetAccess(c.hardcoded[i], NO_ACCESS);
      }
    }
    assert c.hardcoded[..|c.hardcoded|] == c.hardcoded;
  }

  /** The map-building part of `getAccessMapForProjectUser`, on the rows it fetched: for any rows, in any order, the
      loops compute the pointwise rule. */
  method FillAccessMap(c: Catalog, policies: seq<Grant>, perms: seq<Grant>) returns (m: AccessMap)
    requires c.Valid()
    ensures fresh(m) && m.entries == Access(c, policies, perms)
    ensures forall key :: Lookup(m.entries, key) == Rule(c, policies, perms, key)
  {
    m := new AccessMap();
    if |policies| > 0 {
      OverrideWithPolicies(m, policies);
      FallBackOnPermissions(m, policies, perms);
    } else {
      MergePermissions(m, perms);
    }
    var hasAnyPolicy := |perms| > 0 || |policies| > 0;
    if !hasAnyPolicy {
      SameLookups(m.entries, map[]);
      AddDefaults(c, m);
    }
    FillHardcoded(c, m);
    forall key ensures Lookup(m.entries, key) == Lookup(Access(c, policies, perms), key) {
      AccessIsRule(c, policies, perms, key);
    }
    SameLookups(m.entries, Access(c, policies, perms));
  }
}
