/** Exactly when interleaved refreshes and logouts go wrong: when a row gets two successors, and when a session outlives a
    logout. */
module TokenForks {
  import opened Wrappers
  import Tokens
  import opened TokenRaces

  // ── One refresh at a time ───────────────────────────────────────────────

  /** Some row has two successors. */
  ghost predicate Forked(w: World)
    requires Sized(w)
  {
    exists i, j | 0 <= i < j < |w.rows| :: w.parent[i].Some? && w.parent[i] == w.parent[j]
  }

  /** Among its successors and the refreshes in flight on it, every row has at most one. */
  ghost predicate Exclusive(w: World)
    requires Sized(w)
  {
    && !Forked(w)
    && (forall q, r | q in w.pending && r in w.pending && w.pending[q].row == w.pending[r].row :: q == r)
    && (forall q, i | q in w.pending && 0 <= i < |w.rows| :: w.parent[i] != Some(w.pending[q].row))
  }

  /** The statement is a lookup that is accepted on a row while another refresh of that row is in flight. */
  ghost predicate Overlaps(w: World, statement: Statement)
    requires Sized(w)
  {
    && statement.Lookup? && statement.request !in w.pending
    && var i := Tokens.Find(w.rows, statement.token);
       Tokens.Accepted(w.rows, i, statement.token, statement.now) && exists q :: q in w.pending && w.pending[q].row == i
  }

  /** A live row has no successor. */
  lemma LiveIsLast(w: World, i: nat)
    requires Good(w) && i < |w.rows| && w.rows[i].revokedAt.None?
    ensures forall j | 0 <= j < |w.rows| :: w.parent[j] != Some(i)
  {
    forall j | 0 <= j < |w.rows| ensures w.parent[j] != Some(i) {
      assert Sound(w, j) && Sound(w, i);
    }
  }

  lemma LookupExclusiveIff(cfg: Tokens.Config, w: World, statement: Statement)
    requires Good(w) && Exclusive(w) && statement.Lookup?
    ensures Sized(Step(cfg, w, statement))
    ensures Exclusive(Step(cfg, w, statement)) <==> !Overlaps(w, statement)
  {
    var w' := Step(cfg, w, statement);
    var q, i := statement.request, Tokens.Find(w.rows, statement.token);
    if q !in w.pending && Tokens.Accepted(w.rows, i, statement.token, statement.now) {
      LiveIsLast(w, i);
      assert w'.pending[q].row == i;
      if Overlaps(w, statement) {
        var r :| r in w.pending && w.pending[r].row == i;
        assert w'.pending[r].row == i;
      }
    }
  }

  lemma CreateKeepsExclusive(cfg: Tokens.Config, w: World, statement: Statement)
    requires Good(w) && Exclusive(w) && statement.Create?
    ensures Sized(Step(cfg, w, statement)) && Exclusive(Step(cfg, w, statement))
  {
    StepExtends(cfg, w, statement);
    var w', q := Step(cfg, w, statement), statement.request;
    if q in w.pending && w.pending[q].Ready? {
      assert w'.parent == w.parent + [Some(w.pending[q].row)];
      assert w'.pending == w.pending - {q};
    }
  }

  lemma OthersKeepExclusive(cfg: Tokens.Config, w: World, statement: Statement)
    requires Good(w) && Exclusive(w) && !statement.Lookup? && !statement.Create?
    ensures Sized(Step(cfg, w, statement)) && Exclusive(Step(cfg, w, statement))
  {
    var w' := Step(cfg, w, statement);
    StepExtends(cfg, w, statement);
    assert forall q | q in w'.pending :: q in w.pending && w'.pending[q].row == w.pending[q].row;
    assert w'.parent == w.parent || w'.parent == w.parent + [None];
  }

  /** One statement keeps it exactly unless it overlaps. */
  lemma StepExclusiveIff(cfg: Tokens.Config, w: World, statement: Statement)
    requires Good(w) && Exclusive(w)
    ensures Sized(Step(cfg, w, statement))
    ensures Exclusive(Step(cfg, w, statement)) <==> !Overlaps(w, statement)
  {
    if statement.Lookup? { LookupExclusiveIff(cfg, w, statement); }
    else if statement.Create? { CreateKeepsExclusive(cfg, w, statement); }
    else { OthersKeepExclusive(cfg, w, statement); }
  }

  /** The world after the first `n` statements of a run from the empty table. */
  ghost function At(cfg: Tokens.Config, statements: seq<Statement>, n: nat): (w: World)
    requires n <= |statements|
    ensures Good(w)
  {
    Run(cfg, EMPTY, statements[..n])
  }

  lemma StepAt(cfg: Tokens.Config, statements: seq<Statement>, n: nat)
    requires n < |statements| && Exclusive(At(cfg, statements, n))
    ensures Exclusive(At(cfg, statements, n + 1)) <==> !Overlaps(At(cfg, statements, n), statements[n])
  {
    assert statements[..n + 1][..n] == statements[..n];
    hide Exclusive, Overlaps, Step;
    StepExclusiveIff(cfg, At(cfg, statements, n), statements[n]);
  }

  lemma {:induction false} ExclusiveUntil(cfg: Tokens.Config, statements: seq<Statement>, n: nat)
    requires n <= |statements|
    requires forall i | 0 <= i < |statements| :: !Overlaps(At(cfg, statements, i), statements[i])
    ensures Exclusive(At(cfg, statements, n))
  {
    if n > 0 {
      ExclusiveUntil(cfg, statements, n - 1);
      StepAt(cfg, statements, n - 1);
    }
  }

  /** Along an interleaved run every row has, all the time, at most one successor or refresh in flight exactly when no
      lookup of the run overlaps. */
  lemma RunExclusiveIff(cfg: Tokens.Config, statements: seq<Statement>)
    ensures (forall n | 0 <= n <= |statements| :: Exclusive(At(cfg, statements, n)))
            <==> (forall n | 0 <= n < |statements| :: !Overlaps(At(cfg, statements, n), statements[n]))
  {
    hide Exclusive, Overlaps, At;
    if forall n | 0 <= n <= |statements| :: Exclusive(At(cfg, statements, n)) {
      forall n | 0 <= n < |statements|
          ensures !Overlaps(At(cfg, statements, n), statements[n]) { StepAt(cfg, statements, n); }
    }
    if forall n | 0 <= n < |statements| :: !Overlaps(At(cfg, statements, n), statements[n]) {
      forall n | 0 <= n <= |statements| ensures Exclusive(At(cfg, statements, n)) { ExclusiveUntil(cfg, statements, n); }
    }
  }

  /** Without overlapping lookups a row has at most one successor, whatever else is interleaved. */
  lemma OneSuccessorWithoutOverlap(cfg: Tokens.Config, statements: seq<Statement>)
    requires forall n | 0 <= n < |statements| :: !Overlaps(At(cfg, statements, n), statements[n])
    ensures var w := Run(cfg, EMPTY, statements);
            forall i, j | 0 <= i < |w.rows| && 0 <= j < |w.rows| && w.parent[i].Some? && w.parent[i] == w.parent[j] :: i == j
  {
    ExclusiveUntil(cfg, statements, |statements|);
    assert statements[..|statements|] == statements;
  }

  // ── Finishing what is in flight ─────────────────────────────────────────

  /** The statements a refresh still performs; those it has performed already change nothing. */
  function Finishing(q: nat): seq<Statement> {
    [Mark(q, 0)] + [FindAccount(q, true)] + [Create(q, 0)]
  }

  ghost predicate NoLookup(later: seq<Statement>) {
    forall i | 0 <= i < |later| :: !later[i].Lookup?
  }

  /** What finishing a refresh does: one more, live row that follows the refreshed one; no other row changes. */
  ghost predicate Finished(w: World, w': World, q: nat)
    requires Sized(w) && Sized(w') && q in w.pending
  {
    var i := w.pending[q].row;
    && w'.parent == w.parent + [Some(i)] && w'.pending == w.pending - {q}
    && w'.rows[|w.rows|].revokedAt.None? && w'.rows[|w.rows|].userId == w.rows[i].token.sub
    && forall j | 0 <= j < |w.rows| && j != i :: w'.rows[j] == w.rows[j]
  }

  lemma FinishingFinishes(cfg: Tokens.Config, w: World, q: nat)
    requires Good(w) && q in w.pending
    ensures Finished(w, Run(cfg, w, Finishing(q)), q)
  {
    var w1 := Step(cfg, w, Mark(q, 0));
    RunOne(cfg, w, Mark(q, 0));
    RunConcat(cfg, w, [Mark(q, 0)], [FindAccount(q, true)]);
    MarkDone(cfg, w, q);
    StepIsGood(cfg, w, Mark(q, 0));
    RunOne(cfg, w1, FindAccount(q, true));
    var w2 := Step(cfg, w1, FindAccount(q, true));
    FindDone(cfg, w1, q);
    StepIsGood(cfg, w1, FindAccount(q, true));
    RunConcat(cfg, w, [Mark(q, 0)] + [FindAccount(q, true)], [Create(q, 0)]);
    RunOne(cfg, w2, Create(q, 0));
    CreateDone(cfg, w2, q);
    var w3 := Step(cfg, w2, Create(q, 0));
    assert w3 == Run(cfg, w, Finishing(q));
    hide Step, Run, Good;
  }

  lemma MarkDone(cfg: Tokens.Config, w: World, q: nat)
    requires Good(w) && q in w.pending
    ensures var w1 := Step(cfg, w, Mark(q, 0));
            && w1.parent == w.parent && |w1.rows| == |w.rows| && q in w1.pending && !w1.pending[q].Seen?
            && w1.pending - {q} == w.pending - {q} && w1.pending[q].row == w.pending[q].row
            && w1.rows[w.pending[q].row].token == w.rows[w.pending[q].row].token
            && (forall j | 0 <= j < |w.rows| && j != w.pending[q].row :: w1.rows[j] == w.rows[j])
  {
  }

  lemma FindDone(cfg: Tokens.Config, w: World, q: nat)
    requires Good(w) && q in w.pending && !w.pending[q].Seen?
    ensures var w1 := Step(cfg, w, FindAccount(q, true));
            && w1.parent == w.parent && w1.rows == w.rows && q in w1.pending && w1.pending[q].Ready?
            && w1.pending - {q} == w.pending - {q} && w1.pending[q].row == w.pending[q].row
  {
  }

  lemma CreateDone(cfg: Tokens.Config, w: World, q: nat)
    requires Good(w) && q in w.pending && w.pending[q].Ready?
    ensures var w1 := Step(cfg, w, Create(q, 0));
            && |w1.rows| == |w.rows| + 1
            && w1.parent == w.parent + [Some(w.pending[q].row)] && w1.pending == w.pending - {q}
            && (forall j | 0 <= j < |w.rows| :: w1.rows[j] == w.rows[j])
            && w1.rows[|w.rows|].revokedAt.None? && w1.rows[|w.rows|].userId == w.rows[w.pending[q].row].token.sub
  {
  }

  // ── When a row gets two successors ──────────────────────────────────────

  /** The row of two refreshes in flight gets two live successors when both finish. */
  lemma BothFinish(cfg: Tokens.Config, w: World, q: nat, r: nat)
    requires Good(w) && q in w.pending && r in w.pending && q != r && w.pending[q].row == w.pending[r].row
    ensures LiveFork(Run(cfg, w, Finishing(q) + Finishing(r)), w.pending[q].row)
  {
    var w1 := Run(cfg, w, Finishing(q));
    FinishingFinishes(cfg, w, q);
    assert r in w1.pending && w1.pending[r] == w.pending[r];
    FinishingFinishes(cfg, w1, r);
    RunConcat(cfg, w, Finishing(q), Finishing(r));
    var w2 := Run(cfg, w1, Finishing(r));
    var n := |w.rows|;
    assert n < n + 1 < |w2.rows| && w2.parent[n] == w2.parent[n + 1] == Some(w.pending[q].row);
    assert w.pending[q].row < n;
    hide Step, Run, Finishing;
  }

  ghost predicate LiveFork(w: World, p: nat)
    requires Sized(w)
  {
    exists i, j | 0 <= i < j < |w.rows| ::
      w.parent[i] == w.parent[j] == Some(p) && w.rows[i].revokedAt.None? && w.rows[j].revokedAt.None?
  }

  lemma {:induction false} NoLookupKeepsExclusive(cfg: Tokens.Config, w: World, later: seq<Statement>)
    requires Good(w) && Exclusive(w) && NoLookup(later)
    ensures Exclusive(Run(cfg, w, later))
  {
    if later != [] {
      var n := |later| - 1;
      NoLookupKeepsExclusive(cfg, w, later[..n]);
      hide Exclusive, Step;
      StepExclusiveIff(cfg, Run(cfg, w, later[..n]), later[n]);
    }
  }

  ghost predicate CanFork(cfg: Tokens.Config, w: World)
    requires Good(w)
  {
    exists later :: NoLookup(later) && Forked(Run(cfg, w, later))
  }

  lemma ForksNow(cfg: Tokens.Config, w: World, later: seq<Statement>, i: nat, j: nat)
    requires Good(w) && NoLookup(later)
    requires var w' := Run(cfg, w, later); i < j < |w'.rows| && w'.parent[i].Some? && w'.parent[i] == w'.parent[j]
    ensures CanFork(cfg, w)
  {
    assert Forked(Run(cfg, w, later));
  }

  lemma FinishBothForks(cfg: Tokens.Config, w: World, q: nat, r: nat)
    requires Good(w) && q in w.pending && r in w.pending && q != r && w.pending[q].row == w.pending[r].row
    ensures CanFork(cfg, w)
  {
    hide Run, CanFork, Sound, InTime;
    BothFinish(cfg, w, q, r);
    var w' := Run(cfg, w, Finishing(q) + Finishing(r));
    var i, j :| 0 <= i < j < |w'.rows| && w'.parent[i] == w'.parent[j] == Some(w.pending[q].row);
    ForksNow(cfg, w, Finishing(q) + Finishing(r), i, j);
  }

  lemma FinishAgainForks(cfg: Tokens.Config, w: World, q: nat, i: nat)
    requires Good(w) && q in w.pending && i < |w.rows| && w.parent[i] == Some(w.pending[q].row)
    ensures CanFork(cfg, w)
  {
    FinishingFinishes(cfg, w, q);
    hide Run, Good, CanFork;
    ForksNow(cfg, w, Finishing(q), i, |w.rows|);
  }

  /** From the statements already under way some row can get two successors exactly when some row has two among its
      successors and the refreshes in flight on it. */
  lemma CanForkIff(cfg: Tokens.Config, w: World)
    requires Good(w)
    ensures CanFork(cfg, w) <==> !Exclusive(w)
  {
    if Exclusive(w) {
      forall later | NoLookup(later) ensures !Forked(Run(cfg, w, later)) { NoLookupKeepsExclusive(cfg, w, later); }
    } else {
      NotExclusiveForks(cfg, w);
    }
  }

  lemma NotExclusiveForks(cfg: Tokens.Config, w: World)
    requires Good(w) && !Exclusive(w)
    ensures CanFork(cfg, w)
  {
    hide Run, CanFork, Forked, Sound, InTime;
    if Forked(w) {
      ForkedAlready(cfg, w);
    } else if q, r :| q in w.pending && r in w.pending && w.pending[q].row == w.pending[r].row && q != r {
      FinishBothForks(cfg, w, q, r);
    } else {
      var q, i :| q in w.pending && 0 <= i < |w.rows| && w.parent[i] == Some(w.pending[q].row);
      FinishAgainForks(cfg, w, q, i);
    }
  }

  lemma ForkedAlready(cfg: Tokens.Config, w: World)
    requires Good(w) && Forked(w)
    ensures CanFork(cfg, w)
  {
    assert Run(cfg, w, []) == w && NoLookup([]);
  }

  /** From any point of any run, two unused requests can turn a token that is accepted into a row with two live successors:
      both look it up before either writes. */
  lemma RacingRefreshesFork(cfg: Tokens.Config, statements: seq<Statement>, token: Tokens.Jwt, now: int, q: nat, r: nat)
    requires var w := Run(cfg, EMPTY, statements);
             q !in w.pending && r !in w.pending && q != r && Tokens.Accepted(w.rows, Tokens.Find(w.rows, token), token, now)
    ensures exists later ::
              LiveFork(Run(cfg, EMPTY, statements + later), Tokens.Find(Run(cfg, EMPTY, statements).rows, token))
  {
    var later := LookBothUp(cfg, Run(cfg, EMPTY, statements), token, now, q, r);
    RunConcat(cfg, EMPTY, statements, later);
    hide Run, LiveFork, Good, Sound, InTime;
    assert LiveFork(Run(cfg, EMPTY, statements + later), Tokens.Find(Run(cfg, EMPTY, statements).rows, token));
  }

  lemma LookBothUp(cfg: Tokens.Config, w: World, token: Tokens.Jwt, now: int, q: nat, r: nat) returns (later: seq<Statement>)
    requires Good(w) && q !in w.pending && r !in w.pending && q != r
               && Tokens.Accepted(w.rows, Tokens.Find(w.rows, token), token, now)
    ensures LiveFork(Run(cfg, w, later), Tokens.Find(w.rows, token))
  {
    var i := Tokens.Find(w.rows, token);
    var w1 := Step(cfg, w, Lookup(q, token, now));
    StepIsGood(cfg, w, Lookup(q, token, now));
    assert w1.rows == w.rows && w1.pending == w.pending[q := Seen(i, w.tick)];
    var w2 := Step(cfg, w1, Lookup(r, token, now));
    StepIsGood(cfg, w1, Lookup(r, token, now));
    assert w2.pending == w1.pending[r := Seen(i, w1.tick)];
    hide Step, Run, Finishing, LiveFork, Sound, InTime;
    BothFinish(cfg, w2, q, r);
    RunFirst(cfg, w1, Lookup(r, token, now), Finishing(q) + Finishing(r));
    RunFirst(cfg, w, Lookup(q, token, now), [Lookup(r, token, now)] + (Finishing(q) + Finishing(r)));
    later := [Lookup(q, token, now)] + ([Lookup(r, token, now)] + (Finishing(q) + Finishing(r)));
  }

  // ── When a session outlives a logout ────────────────────────────────────

  /** Going back from row `i` one only meets rows created since the table had `n` rows, down to a login. */
  ghost predicate SinceLogin(w: World, i: nat, n: nat)
    requires Sized(w) && i < |w.rows|
  {
    n <= i && (w.parent[i].Some? ==> w.parent[i].value < i && SinceLogin(w, w.parent[i].value, n))
  }

  /** After the logout and `later`, every row of the number that is live or was created since goes back to a login made
      since. */
  ghost predicate EndsAll(cfg: Tokens.Config, w: World, userId: nat, now: int, later: seq<Statement>)
    requires Good(w)
  {
    var w' := AfterLogout(cfg, w, userId, now, later);
    forall i | 0 <= i < |w'.rows| && w'.rows[i].userId == userId && (|w.rows| <= i || w'.rows[i].revokedAt.None?) ::
      SinceLogin(w', i, |w.rows|)
  }

  ghost predicate NoneInFlight(w: World, userId: nat)
    requires Sized(w)
  {
    forall q | q in w.pending :: w.rows[w.pending[q].row].userId != userId
  }

  /** The number's first `n` rows are dead, nothing is in flight on them, and nothing follows them any more. */
  ghost predicate CutOff(w: World, userId: nat, n: nat)
    requires Sized(w)
  {
    && n <= |w.rows|
    && (forall i | 0 <= i < n && w.rows[i].userId == userId :: w.rows[i].revokedAt.Some?)
    && (forall q | q in w.pending && w.rows[w.pending[q].row].userId == userId :: n <= w.pending[q].row)
    && (forall i | n <= i < |w.rows| && w.rows[i].userId == userId && w.parent[i].Some? :: n <= w.parent[i].value)
  }

  lemma StepKeepsAccounts(cfg: Tokens.Config, w: World, statement: Statement, i: nat)
    requires Good(w) && i < |w.rows|
    ensures var w' := Step(cfg, w, statement);
            && Sized(w') && i < |w'.rows| && w'.rows[i].userId == w.rows[i].userId && w'.parent[i] == w.parent[i]
            && (w.rows[i].revokedAt.Some? ==> w'.rows[i].revokedAt.Some?)
  {
    StepExtends(cfg, w, statement);
    assert RowExtends(w, Step(cfg, w, statement), i);
  }

  /** A refresh in flight stays on its row; one that arrives is on a live row. */
  lemma StepKeepsInFlight(cfg: Tokens.Config, w: World, statement: Statement, q: nat)
    requires Good(w) && q in Step(cfg, w, statement).pending
    ensures var row := Step(cfg, w, statement).pending[q].row;
            && row < |w.rows|
            && ((q in w.pending && w.pending[q].row == row) || w.rows[row].revokedAt.None?)
  {
  }

  /** The account number of a new row is that of the row it follows. */
  lemma StepAddsFollower(cfg: Tokens.Config, w: World, statement: Statement)
    requires Good(w) && |Step(cfg, w, statement).rows| > |w.rows|
    ensures var w' := Step(cfg, w, statement);
            && Sized(w') && |w'.rows| == |w.rows| + 1
            && (w'.parent[|w.rows|].Some? ==>
                  exists q :: q in w.pending && w'.parent[|w.rows|] == Some(w.pending[q].row)
                              && w'.rows[|w.rows|].userId == w.rows[w.pending[q].row].userId)
  {
    StepExtends(cfg, w, statement);
    if statement.Create? { assert Sound(w, w.pending[statement.request].row); }
  }

  lemma StepKeepsCutOff(cfg: Tokens.Config, w: World, statement: Statement, userId: nat, n: nat)
    requires Good(w) && CutOff(w, userId, n)
    ensures Sized(Step(cfg, w, statement)) && CutOff(Step(cfg, w, statement), userId, n)
  {
    StepExtends(cfg, w, statement);
    var w' := Step(cfg, w, statement);
    if |w'.rows| > |w.rows| { StepAddsFollower(cfg, w, statement); }
    hide Step, Good, Extends;
    forall i | 0 <= i < |w.rows|
      ensures w'.rows[i].userId == w.rows[i].userId && w'.parent[i] == w.parent[i]
      ensures w.rows[i].revokedAt.Some? ==> w'.rows[i].revokedAt.Some?
    {
      StepKeepsAccounts(cfg, w, statement, i);
    }
    forall q | q in w'.pending && w'.rows[w'.pending[q].row].userId == userId ensures n <= w'.pending[q].row {
      StepKeepsInFlight(cfg, w, statement, q);
    }
  }

  lemma {:induction false} RunKeepsCutOff(cfg: Tokens.Config, w: World, statements: seq<Statement>, userId: nat, n: nat)
    requires Good(w) && CutOff(w, userId, n)
    ensures CutOff(Run(cfg, w, statements), userId, n)
  {
    if statements != [] {
      RunKeepsCutOff(cfg, w, statements[..|statements| - 1], userId, n);
      hide CutOff, Step;
      StepKeepsCutOff(cfg, Run(cfg, w, statements[..|statements| - 1]), statements[|statements| - 1], userId, n);
    }
  }

  lemma {:induction false} CutOffMeansSince(w: World, i: nat, userId: nat, n: nat)
    requires Good(w) && CutOff(w, userId, n) && n <= i < |w.rows| && w.rows[i].userId == userId
    ensures SinceLogin(w, i, n)
  {
    if w.parent[i].Some? {
      assert Sound(w, i);
      CutOffMeansSince(w, w.parent[i].value, userId, n);
    }
  }

  lemma LogoutCutsOff(cfg: Tokens.Config, w: World, userId: nat, now: int, later: seq<Statement>)
    requires Good(w) && NoneInFlight(w, userId)
    ensures EndsAll(cfg, w, userId, now, later)
  {
    var w0 := Step(cfg, w, RevokeRowsOf(userId, now));
    RunFirst(cfg, w, RevokeRowsOf(userId, now), later);
    assert CutOff(w0, userId, |w.rows|);
    RunKeepsCutOff(cfg, w0, later, userId, |w.rows|);
    var w' := AfterLogout(cfg, w, userId, now, later);
    forall i | 0 <= i < |w'.rows| && w'.rows[i].userId == userId && (|w.rows| <= i || w'.rows[i].revokedAt.None?)
      ensures SinceLogin(w', i, |w.rows|)
    {
      CutOffMeansSince(w', i, userId, |w.rows|);
    }
  }

  /** A refresh of one of the number's rows that is in flight at the logout can leave a live row behind that follows the
      old one. */
  lemma LogoutRacesRefresh(cfg: Tokens.Config, w: World, userId: nat, now: int, q: nat)
    requires Good(w) && q in w.pending && w.rows[w.pending[q].row].userId == userId
    ensures var w' := AfterLogout(cfg, w, userId, now, Finishing(q));
            && |w'.rows| == |w.rows| + 1 && w'.rows[|w.rows|].userId == userId && w'.rows[|w.rows|].revokedAt.None?
            && w'.parent[|w.rows|] == Some(w.pending[q].row)
  {
    var w0 := Step(cfg, w, RevokeRowsOf(userId, now));
    assert Sound(w, w.pending[q].row);
    assert w0.pending == w.pending && w0.parent == w.parent
        && w0.rows[w.pending[q].row].token == w.rows[w.pending[q].row].token;
    RunFirst(cfg, w, RevokeRowsOf(userId, now), Finishing(q));
    FinishingFinishes(cfg, w0, q);
    hide Step, Run;
  }

  /** A logout ends every session of its account number, whatever comes later, exactly when no refresh of one of its rows is in
      flight. */
  lemma LogoutEndsAllIff(cfg: Tokens.Config, w: World, userId: nat, now: int)
    requires Good(w)
    ensures (forall later :: EndsAll(cfg, w, userId, now, later)) <==> NoneInFlight(w, userId)
  {
    if NoneInFlight(w, userId) {
      forall later ensures EndsAll(cfg, w, userId, now, later) { LogoutCutsOff(cfg, w, userId, now, later); }
    } else {
      var q :| q in w.pending && w.rows[w.pending[q].row].userId == userId;
      LogoutRacesRefresh(cfg, w, userId, now, q);
      assert w.pending[q].row < |w.rows|;
      var w' := AfterLogout(cfg, w, userId, now, Finishing(q));
      assert !SinceLogin(w', |w.rows|, |w.rows|);
      assert !EndsAll(cfg, w, userId, now, Finishing(q));
    }
  }
}
