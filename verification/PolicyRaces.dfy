/** Permissions when calls interleave: exactly which statement can give a key a second row, and exactly when two racing
    calls can. */
module PolicyRaces {
  import opened Wrappers
  import opened Catalog
  import opened Tables
  import opened Statements
  import opened Requests
  import opened PolicyTables

  // ── The one statement that duplicates ───────────────────────────────────

  ghost predicate HasRow(t: Tables, key: (nat, Option<nat>, string)) {
    exists p :: p in t.permissions.rows && PermissionKey(t.permissions.rows[p]) == key
  }

  /** A `setPermission` without department inserts, because its lookup found no row, and by now there is one. */
  ghost predicate InsertsAgain(c: Catalog, t: Tables, req: Request, l: Local) {
    && req.SetPermission? && req.scope.None? && !l.Start? && !(l.PermissionRead? && l.found.Some?)
    && c.Allowed(NormalizePolicyResource(c, req.resource)) && req.roleId in t.projectRoles.rows
    && HasRow(t, (req.roleId, None, NormalizePolicyResource(c, req.resource)))
  }

  ghost predicate StaleInsert(c: Catalog, s: System, e: Event) {
    e.Turn? && e.pid in s.running && InsertsAgain(c, s.tables, s.running[e.pid].req, s.running[e.pid].local)
  }

  /** Rows only go, or keep their key. */
  ghost predicate KeysKept(t: Tables, t': Tables) {
    forall p | p in t'.permissions.rows ::
      p in t.permissions.rows && PermissionKey(t'.permissions.rows[p]) == PermissionKey(t.permissions.rows[p])
  }

  lemma KeptKeysStaySingle(t: Tables, t': Tables)
    requires OneRowPerKey(t) && KeysKept(t, t')
    ensures OneRowPerKey(t')
  {
  }

  lemma OthersKeepKeys(c: Catalog, t: Tables, req: Request, l: Local)
    requires Inv(c, t) && !req.SetPermission?
    ensures KeysKept(t, Advance(c, t, req, l).0)
  {
    StatementShape(c, t, req, l);
    SoundKeys(c, t);
    if RootOf(t, req).Some? { PermissionsAfterDelete(t, RootOf(t, req).value); }
    hide Advance, DeleteRows, Inv, ForeignKeys, RootOf;
  }

  lemma InsertIff(t: Tables, row: Permission)
    requires OneRowPerKey(t) && t.permissions.Valid()
    ensures OneRowPerKey(t.(permissions := t.permissions.Insert(row))) <==> !HasRow(t, PermissionKey(row))
  {
    var t' := t.(permissions := t.permissions.Insert(row));
    assert t'.permissions.rows[t.permissions.next] == row;
    if HasRow(t, PermissionKey(row)) {
      var p :| p in t.permissions.rows && PermissionKey(t.permissions.rows[p]) == PermissionKey(row);
      assert t'.permissions.rows[p] == t.permissions.rows[p];
    }
  }

  lemma UpsertKeepsSingle(t: Tables, row: Permission)
    requires OneRowPerKey(t) && t.permissions.Valid() && UpsertPermission(t, row).Ok?
    ensures OneRowPerKey(UpsertPermission(t, row).value)
  {
    if FindPermission(t, PermissionKey(row)).Some? {
      assert KeysKept(t, UpsertPermission(t, row).value);
    } else {
      InsertIff(t, row);
    }
  }

  lemma SetPermissionStep(c: Catalog, t: Tables, req: Request, l: Local)
    requires OneRowPerKey(t) && t.permissions.Valid() && req.SetPermission?
    ensures OneRowPerKey(Advance(c, t, req, l).0) <==> !InsertsAgain(c, t, req, l)
  {
    hide NormalizePolicyResource, BuildPolicyFlags, OneRowPerKey, HasRow;
    var key := NormalizePolicyResource(c, req.resource);
    var row := Permission(req.roleId, req.scope, key, BuildPolicyFlags(c, key, req.flags));
    if c.Allowed(key) {
      if req.scope.Some? {
        if UpsertPermission(t, row).Ok? { UpsertKeepsSingle(t, row); }
      } else if l.PermissionRead? && l.found.Some? {
        assert KeysKept(t, Advance(c, t, req, l).0);
        KeptKeysStaySingle(t, Advance(c, t, req, l).0);
      } else if !l.Start? {
        InsertIff(t, row);
      }
    }
  }

  /** One event keeps one row per key unless it is a stale insert; and a stale insert never does. */
  lemma StepKeepsOneRowIff(c: Catalog, s: System, e: Event)
    requires Inv(c, s.tables) && OneRowPerKey(s.tables)
    ensures OneRowPerKey(Next(c, s, e).tables) <==> !StaleInsert(c, s, e)
  {
    SoundKeys(c, s.tables);
    hide Inv, OneRowPerKey, Advance, InsertsAgain, AfterWrite;
    match e
    case Arrive(_, _) =>
    case Write(write) =>
      TaskWriteLeavesAccess(s.tables, write);
      KeptKeysStaySingle(s.tables, Next(c, s, e).tables);
    case Turn(pid) =>
      if pid in s.running {
        var process := s.running[pid];
        if process.req.SetPermission? {
          SetPermissionStep(c, s.tables, process.req, process.local);
        } else {
          OthersKeepKeys(c, s.tables, process.req, process.local);
          KeptKeysStaySingle(s.tables, Next(c, s, e).tables);
          NotAPermission(c, s.tables, process.req, process.local);
        }
      }
  }

  lemma NotAPermission(c: Catalog, t: Tables, req: Request, l: Local)
    requires !req.SetPermission?
    ensures !InsertsAgain(c, t, req, l)
  {
  }

  lemma StepAt(c: Catalog, events: seq<Event>, n: nat)
    requires c.Valid() && n < |events| && OneRowPerKey(At(c, events, n).tables)
    ensures OneRowPerKey(At(c, events, n + 1).tables) <==> !StaleInsert(c, At(c, events, n), events[n])
  {
    PrefixSteps(c, events, n);
    hide OneRowPerKey, Inv, Next, StaleInsert;
    StepKeepsOneRowIff(c, At(c, events, n), events[n]);
  }

  lemma {:induction false} SingleUntil(c: Catalog, events: seq<Event>, n: nat)
    requires c.Valid() && n <= |events|
    requires forall i | 0 <= i < |events| :: !StaleInsert(c, At(c, events, i), events[i])
    ensures OneRowPerKey(At(c, events, n).tables)
  {
    if n > 0 {
      SingleUntil(c, events, n - 1);
      StepAt(c, events, n - 1);
    }
  }

  /** Along an interleaved run there is one row per key all the time exactly when the run has no stale insert. */
  lemma RunKeepsOneRowIff(c: Catalog, events: seq<Event>)
    requires c.Valid()
    ensures (forall n | 0 <= n <= |events| :: OneRowPerKey(At(c, events, n).tables))
            <==> (forall n | 0 <= n < |events| :: !StaleInsert(c, At(c, events, n), events[n]))
  {
    hide OneRowPerKey, StaleInsert, At;
    if forall n | 0 <= n <= |events| :: OneRowPerKey(At(c, events, n).tables) {
      forall n | 0 <= n < |events| ensures !StaleInsert(c, At(c, events, n), events[n]) { StepAt(c, events, n); }
    }
    if forall n | 0 <= n < |events| :: !StaleInsert(c, At(c, events, n), events[n]) {
      forall n | 0 <= n <= |events| ensures OneRowPerKey(At(c, events, n).tables) { SingleUntil(c, events, n); }
    }
  }

  // ── Two racing calls ────────────────────────────────────────────────────

  /** Nothing happens but two requests, in any order and as often as they come. */
  predicate OnlyThese(events: seq<Event>, a: Request, b: Request) {
    forall i | 0 <= i < |events| :: events[i] in {Arrive(0, a), Arrive(1, b), Turn(0), Turn(1)}
  }

  ghost predicate CanDuplicate(c: Catalog, t: Tables, a: Request, b: Request) {
    exists events :: OnlyThese(events, a, b) && !OneRowPerKey(Run(c, System(t, map[]), events).tables)
  }

  lemma NullScopeStatements(c: Catalog, t: Tables, req: Request)
    requires req.SetPermission? && req.scope.None? && c.Allowed(NormalizePolicyResource(c, req.resource))
    ensures var key := NormalizePolicyResource(c, req.resource);
            var row := Permission(req.roleId, None, key, BuildPolicyFlags(c, key, req.flags));
            && Advance(c, t, req, Start) == (t, More(PermissionRead(FindPermission(t, PermissionKey(row)))))
            && (req.roleId in t.projectRoles.rows ==>
                  Advance(c, t, req, PermissionRead(None)) == (t.(permissions := t.permissions.Insert(row)), Over(Ok(Done))))
  {
    hide NormalizePolicyResource, BuildPolicyFlags;
  }

  lemma RunAppend(c: Catalog, s: System, events: seq<Event>, e: Event)
    ensures Run(c, s, events + [e]) == Next(c, Run(c, s, events), e)
  {
    assert (events + [e])[..|events|] == events;
  }

  /** Both requests arrive, and both look for a row. */
  lemma BothFindNothing(c: Catalog, t: Tables, a: Request, b: Request)
    requires Advance(c, t, a, Start) == (t, More(PermissionRead(None)))
               && Advance(c, t, b, Start) == (t, More(PermissionRead(None)))
    ensures Run(c, System(t, map[]), [Arrive(0, a)] + [Arrive(1, b)] + [Turn(0)] + [Turn(1)])
            == System(t, map[0 := Process(a, PermissionRead(None)), 1 := Process(b, PermissionRead(None))])
  {
    var s := System(t, map[]);
    RunAppend(c, s, [], Arrive(0, a));
    assert [] + [Arrive(0, a)] == [Arrive(0, a)];
    RunAppend(c, s, [Arrive(0, a)], Arrive(1, b));
    RunAppend(c, s, [Arrive(0, a)] + [Arrive(1, b)], Turn(0));
    RunAppend(c, s, [Arrive(0, a)] + [Arrive(1, b)] + [Turn(0)], Turn(1));
    hide Advance;
  }

  lemma BothInsert(c: Catalog, t: Tables, a: Request, b: Request, rowA: Permission, rowB: Permission, looks: seq<Event>)
    requires Run(c, System(t, map[]), looks)
             == System(t, map[0 := Process(a, PermissionRead(None)), 1 := Process(b, PermissionRead(None))])
    requires var t' := t.(permissions := t.permissions.Insert(rowA));
             && Advance(c, t, a, PermissionRead(None)) == (t', Over(Ok(Done)))
             && Advance(c, t', b, PermissionRead(None)) == (t'.(permissions := t'.permissions.Insert(rowB)), Over(Ok(Done)))
    ensures var t' := t.(permissions := t.permissions.Insert(rowA));
            Run(c, System(t, map[]), looks + [Turn(0)] + [Turn(1)]).tables == t'.(permissions := t'.permissions.Insert(rowB))
  {
    hide Advance, Run;
    var s := System(t, map[]);
    RunAppend(c, s, looks, Turn(0));
    RunAppend(c, s, looks + [Turn(0)], Turn(1));
  }

  lemma TwoRows(t: Tables, p: nat, q: nat)
    requires p in t.permissions.rows && q in t.permissions.rows && p != q
    requires PermissionKey(t.permissions.rows[p]) == PermissionKey(t.permissions.rows[q])
    ensures !OneRowPerKey(t)
  {
  }

  lemma Race(c: Catalog, t: Tables, a: Request, b: Request, rowA: Permission, rowB: Permission)
    requires PermissionKey(rowA) == PermissionKey(rowB)
    requires Advance(c, t, a, Start) == (t, More(PermissionRead(None)))
               && Advance(c, t, b, Start) == (t, More(PermissionRead(None)))
    requires var t' := t.(permissions := t.permissions.Insert(rowA));
             && Advance(c, t, a, PermissionRead(None)) == (t', Over(Ok(Done)))
             && Advance(c, t', b, PermissionRead(None)) == (t'.(permissions := t'.permissions.Insert(rowB)), Over(Ok(Done)))
    ensures CanDuplicate(c, t, a, b)
  {
    hide Advance, Run, OneRowPerKey;
    var looks := [Arrive(0, a)] + [Arrive(1, b)] + [Turn(0)] + [Turn(1)];
    BothFindNothing(c, t, a, b);
    BothInsert(c, t, a, b, rowA, rowB, looks);
    TwoRows(Run(c, System(t, map[]), looks + [Turn(0)] + [Turn(1)]).tables, t.permissions.next, t.permissions.next + 1);
  }

  /** The requests run as they would alone: the keys stay, and whoever has looked found the row if there is one. */
  ghost predicate Calm(t: Tables, s: System, a: Request, b: Request, key: (nat, Option<nat>, string)) {
    && s.tables.projectRoles == t.projectRoles
    && KeysKept(t, s.tables) && KeysKept(s.tables, t)
    && forall pid | pid in s.running ::
         && s.running[pid].req in {a, b}
         && (s.running[pid].local.Start?
             || (s.running[pid].local.PermissionRead? && (HasRow(t, key) ==> s.running[pid].local.found.Some?)))
  }

  predicate IsWriteOf(c: Catalog, req: Request, key: (nat, Option<nat>, string)) {
    req.SetPermission? && req.scope.None? && (req.roleId, req.scope, NormalizePolicyResource(c, req.resource)) == key
  }

  lemma CalmTurn(c: Catalog, t: Tables, t': Tables, req: Request, l: Local, key: (nat, Option<nat>, string))
    requires IsWriteOf(c, req, key) && !(c.Allowed(key.2) && key.0 in t.projectRoles.rows && !HasRow(t, key))
    requires t'.projectRoles == t.projectRoles && KeysKept(t, t') && KeysKept(t', t)
    requires l.Start? || (l.PermissionRead? && (HasRow(t, key) ==> l.found.Some?))
    ensures var (t'', progress) := Advance(c, t', req, l);
            && t''.projectRoles == t.projectRoles && KeysKept(t, t'') && KeysKept(t'', t)
            && (progress.More? ==> progress.local.PermissionRead? && (HasRow(t, key) ==> progress.local.found.Some?))
  {
    hide NormalizePolicyResource, BuildPolicyFlags;
    if HasRow(t, key) {
      var p :| p in t.permissions.rows && PermissionKey(t.permissions.rows[p]) == key;
      assert p in t'.permissions.rows && PermissionKey(t'.permissions.rows[p]) == key;
    }
  }

  lemma {:induction false} RunStaysCalm(c: Catalog, t: Tables, events: seq<Event>, a: Request, b: Request,
        key: (nat, Option<nat>, string))
    requires OnlyThese(events, a, b) && IsWriteOf(c, a, key) && IsWriteOf(c, b, key)
    requires !(c.Allowed(key.2) && key.0 in t.projectRoles.rows && !HasRow(t, key))
    ensures Calm(t, Run(c, System(t, map[]), events), a, b, key)
  {
    if events != [] {
      var s, e := Run(c, System(t, map[]), events[..|events| - 1]), events[|events| - 1];
      RunStaysCalm(c, t, events[..|events| - 1], a, b, key);
      hide Advance, IsWriteOf, HasRow, KeysKept;
      if e.Turn? && e.pid in s.running {
        CalmTurn(c, t, s.tables, s.running[e.pid].req, s.running[e.pid].local, key);
      }
    }
  }

  /** Two racing project-wide writes of one key can leave two rows exactly when the resource is allowed, the role exists,
      and there is no row for the key yet. */
  lemma RacingWritersDuplicateIff(c: Catalog, t: Tables, a: Request, b: Request, key: (nat, Option<nat>, string))
    requires OneRowPerKey(t) && IsWriteOf(c, a, key) && IsWriteOf(c, b, key)
    ensures CanDuplicate(c, t, a, b) <==> c.Allowed(key.2) && key.0 in t.projectRoles.rows && !HasRow(t, key)
  {
    if c.Allowed(key.2) && key.0 in t.projectRoles.rows && !HasRow(t, key) {
      RacingWritersDuplicate(c, t, a, b, key);
    } else {
      forall events | OnlyThese(events, a, b) ensures OneRowPerKey(Run(c, System(t, map[]), events).tables) {
        RunStaysCalm(c, t, events, a, b, key);
        KeptKeysStaySingle(t, Run(c, System(t, map[]), events).tables);
      }
    }
  }

  lemma RacingWritersDuplicate(c: Catalog, t: Tables, a: Request, b: Request, key: (nat, Option<nat>, string))
    requires IsWriteOf(c, a, key) && IsWriteOf(c, b, key)
    requires c.Allowed(key.2) && key.0 in t.projectRoles.rows && !HasRow(t, key)
    ensures CanDuplicate(c, t, a, b)
  {
    var rowA := Permission(a.roleId, None, key.2, BuildPolicyFlags(c, key.2, a.flags));
    var rowB := Permission(b.roleId, None, key.2, BuildPolicyFlags(c, key.2, b.flags));
    NullScopeStatements(c, t, a);
    NullScopeStatements(c, t, b);
    NullScopeStatements(c, t.(permissions := t.permissions.Insert(rowA)), b);
    assert FindPermission(t, key).None?;
    hide NormalizePolicyResource, BuildPolicyFlags, Advance, Run, OneRowPerKey, CanDuplicate;
    Race(c, t, a, b, rowA, rowB);
  }
}
