/** Requests handled one at a time are one of the interleavings, and the policy table along such runs. */
module SequentialRuns {
  import opened Wrappers
  import opened Catalog
  import opened Tables
  import opened Requests
  import PolicyTables
  import PolicyRuns

  // ── Handling as a run of events ─────────────────────────────────────────

  lemma {:induction false} RunConcat(c: Catalog, s: System, first: seq<Event>, rest: seq<Event>)
    ensures Run(c, s, first + rest) == Run(c, Run(c, s, first), rest)
  {
    if rest == [] {
      assert first + rest == first;
    } else {
      var n := |rest| - 1;
      RunConcat(c, s, first, rest[..n]);
      assert (first + rest)[..|first + rest| - 1] == first + rest[..n];
      hide Next;
    }
  }

  lemma RunOne(c: Catalog, s: System, e: Event)
    ensures Run(c, s, [e]) == Next(c, s, e)
  {
    assert [e][..0] == [];
    assert Run(c, s, []) == s;
  }

  /** The rest of a request, as turns of its own. */
  lemma {:induction false} FinishAsTurns(c: Catalog, t: Tables, req: Request, l: Local) returns (turns: seq<Event>)
    ensures Run(c, System(t, map[0 := Process(req, l)]), turns) == System(PolicyTables.Finish(c, t, req, l).0, map[])
    decreases PolicyTables.Rank(l)
  {
    var s := System(t, map[0 := Process(req, l)]);
    PolicyTables.AdvanceRanks(c, t, req, l);
    PolicyTables.Unfold(c, t, req, l);
    var (t', progress) := Advance(c, t, req, l);
    RunOne(c, s, Turn(0));
    hide Advance, PolicyTables.Finish;
    match progress
    case More(l') =>
      var rest := FinishAsTurns(c, t', req, l');
      turns := [Turn(0)] + rest;
      RunConcat(c, s, [Turn(0)], rest);
      assert map[0 := Process(req, l)][0 := Process(req, l')] == map[0 := Process(req, l')];
      hide Run;
    case Over(_) =>
      turns := [Turn(0)];
      assert map[0 := Process(req, l)] - {0} == map[];
      hide Run;
  }

  /** Whatever holds after every interleaving holds after every sequence of handled requests: such a sequence is one. */
  lemma {:induction false} HandledIsInterleaved(c: Catalog, reqs: seq<Request>) returns (events: seq<Event>)
    ensures Run(c, System(EMPTY, map[]), events) == System(PolicyTables.HandleAll(c, EMPTY, reqs), map[])
  {
    if reqs == [] {
      events := [];
    } else {
      var before := HandledIsInterleaved(c, reqs[..|reqs| - 1]);
      var t, req := PolicyTables.HandleAll(c, EMPTY, reqs[..|reqs| - 1]), reqs[|reqs| - 1];
      var turns := FinishAsTurns(c, t, req, Start);
      RunOne(c, System(t, map[]), Arrive(0, req));
      assert map[][0 := Process(req, Start)] == map[0 := Process(req, Start)];
      RunConcat(c, System(EMPTY, map[]), before, [Arrive(0, req)]);
      RunConcat(c, System(EMPTY, map[]), before + [Arrive(0, req)], turns);
      events := before + [Arrive(0, req)] + turns;
      hide Run, PolicyTables.Finish;
    }
  }

  // ── The policy table, sequentially ──────────────────────────────────────

  lemma {:induction false} FinishRefines(c: Catalog, t: Tables, req: Request, l: Local, m: PolicyRuns.PolicyMap)
    requires Inv(c, t) && PolicyRuns.Represents(t, m)
    ensures var (t', r) := PolicyTables.Finish(c, t, req, l);
            PolicyRuns.Represents(t', PolicyRuns.Living(t', if r.Ok? then PolicyRuns.Written(c, t, req, m) else m))
    decreases PolicyTables.Rank(l)
  {
    hide Advance, Inv, PolicyTables.Finish, PolicyRuns.Represents, PolicyRuns.Living, PolicyRuns.Written;
    PolicyTables.AdvanceRanks(c, t, req, l);
    PolicyTables.Unfold(c, t, req, l);
    PolicyRuns.StatementRefines(c, t, req, l, m);
    var progress := Advance(c, t, req, l).1;
    match progress
    case More(l') => FinishRefines(c, t, req, l', m);
    case Over(r) => if r.Ok? { assert r.value.Done?; }
  }

  /** The policy map after the requests: the last writer wins, for as long as the role lives. */
  ghost function PoliciesAfter(c: Catalog, reqs: seq<Request>): PolicyRuns.PolicyMap {
    if reqs == [] then map[]
    else
      var before, last := reqs[..|reqs| - 1], reqs[|reqs| - 1];
      var t, m := PolicyTables.HandleAll(c, EMPTY, before), PoliciesAfter(c, before);
      var (t', r) := PolicyTables.Handle(c, t, last);
      PolicyRuns.Living(t', if r.Ok? then PolicyRuns.Written(c, t, last, m) else m)
  }

  /** Along every sequential run both tables are their last-writer-wins maps, with one row per key, and every stored
      resource is allowed and stands for itself. */
  lemma {:induction false} SequentialTablesRefine(c: Catalog, reqs: seq<Request>)
    requires c.Valid()
    ensures var t := PolicyTables.HandleAll(c, EMPTY, reqs);
            && PolicyRuns.Represents(t, PoliciesAfter(c, reqs))
            && PolicyTables.Represents(t, PolicyTables.MapAfter(c, reqs))
            && (forall p | p in t.policies.rows :: Storable(c, t.policies.rows[p].resource))
            && (forall p | p in t.permissions.rows :: Storable(c, t.permissions.rows[p].resource))
  {
    PolicyTables.HandleAllKeepsInv(c, reqs);
    PolicyTables.SequentialRunRefines(c, reqs);
    PolicyRuns.StoredAreStorable(c, PolicyTables.HandleAll(c, EMPTY, reqs));
    if reqs != [] {
      var before := reqs[..|reqs| - 1];
      SequentialTablesRefine(c, before);
      PolicyTables.HandleAllKeepsInv(c, before);
      hide Inv, PolicyTables.Finish, PolicyRuns.Represents, PolicyRuns.Living, PolicyRuns.Written,
          PolicyTables.Represents, PolicyTables.MapAfter;
      FinishRefines(c, PolicyTables.HandleAll(c, EMPTY, before), reqs[|reqs| - 1], Start, PoliciesAfter(c, before));
    }
  }
}
