/** Password-reset calls with their database statements interleaved: exactly when a token changes a second password, and
    when an email gets a second usable token. */
module ResetRaces {
  import opened Wrappers
  import R = ResetTokens

  /** How far a redeeming call has come: it looked its token up, found the account, or has set the password. */
  datatype Stage = Seen(token: nat, email: string) | Found(token: nat, email: string) | Changed(token: nat, email: string)

  /** The rows, passwords and redeeming calls in flight; as bookkeeping, the token behind each password change. */
  datatype World = World(
    rows: map<nat, R.Row>, next: nat, passwords: map<string, string>, pending: map<nat, Stage>, changes: seq<nat>)

  const EMPTY := World(map[], 0, map[], map[], [])

  datatype Clearing = All | Expired(now: int) | Unused

  datatype Statement =
    | Clear(email: string, what: Clearing)                  // one of the `deleteMany` of a requesting call
    | Issue(email: string, now: int)                        // its `create`
    | Look(request: nat, token: nat, now: int)
    | FindAccount(request: nat)
    | SetPassword(request: nat, password: string)
    | MarkUsed(request: nat, now: int)
    | EditAccounts(passwords: map<string, string>)

  predicate Goes(row: R.Row, email: string, what: Clearing) {
    row.email == email &&
    match what
    case All => true
    case Expired(now) => row.expiresAt < now
    case Unused => row.usedAt.None?
  }

  /** The lookup finds a usable token. */
  predicate Usable(w: World, token: nat, now: int) {
    token in w.rows && w.rows[token].usedAt.None? && now <= w.rows[token].expiresAt
  }

  function Step(w: World, s: Statement): World {
    match s
    case Clear(email, what) => w.(rows := map t | t in w.rows && !Goes(w.rows[t], email, what) :: w.rows[t])
    case Issue(email, now) => w.(rows := w.rows[w.next := R.Row(email, now + R.ONE_HOUR, None)], next := w.next + 1)
    case Look(q, token, now) =>
      if q !in w.pending && Usable(w, token, now) then w.(pending := w.pending[q := Seen(token, w.rows[token].email)]) else w
    case FindAccount(q) =>
      if q in w.pending && w.pending[q].Seen? then
        var Seen(token, email) := w.pending[q];
        w.(pending := if email in w.passwords then w.pending[q := Found(token, email)] else w.pending - {q})
      else w
    case SetPassword(q, password) =>
      if q in w.pending && w.pending[q].Found? then
        var Found(token, email) := w.pending[q];
        if email in w.passwords then
          w.(passwords := w.passwords[email := password], changes := w.changes + [token],
             pending := w.pending[q := Changed(token, email)])
        else w.(pending := w.pending - {q})
      else w
    case MarkUsed(q, now) =>
      if q in w.pending && w.pending[q].Changed? then
        var token := w.pending[q].token;
        w.(rows := if token in w.rows then w.rows[token := w.rows[token].(usedAt := Some(now))] else w.rows,
           pending := w.pending - {q})
      else w
    case EditAccounts(passwords) => w.(passwords := passwords)
  }

  // ── What every interleaving keeps ───────────────────────────────────────

  ghost predicate MarksOutstanding(w: World, token: nat) {
    exists q :: q in w.pending && w.pending[q] == Changed(token, w.pending[q].email)
  }

  /** Tokens are never issued twice, and one that changed a password is used or about to be marked as used. */
  ghost predicate Good(w: World) {
    && (forall t | t in w.rows :: t < w.next)
    && (forall q | q in w.pending :: w.pending[q].token < w.next)
    && (forall i | 0 <= i < |w.changes| :: w.changes[i] < w.next)
    && (forall i | 0 <= i < |w.changes| && w.changes[i] in w.rows && w.rows[w.changes[i]].usedAt.None? ::
        MarksOutstanding(w, w.changes[i]))
  }

  lemma StepIsGood(w: World, s: Statement)
    requires Good(w)
    ensures Good(Step(w, s))
  {
    var w' := Step(w, s);
    forall i | 0 <= i < |w'.changes| && w'.changes[i] in w'.rows && w'.rows[w'.changes[i]].usedAt.None?
      ensures MarksOutstanding(w', w'.changes[i])
    {
      if i < |w.changes| {
        assert MarksOutstanding(w, w.changes[i]);
        var q :| q in w.pending && w.pending[q] == Changed(w.changes[i], w.pending[q].email);
        assert q in w'.pending && w'.pending[q] == w.pending[q];
      } else {
        assert w'.pending[s.request].Changed?;
      }
    }
  }

  function Run(w: World, statements: seq<Statement>): World {
    if statements == [] then w else Step(Run(w, statements[..|statements| - 1]), statements[|statements| - 1])
  }

  lemma {:induction false} RunIsGood(w: World, statements: seq<Statement>)
    requires Good(w)
    ensures Good(Run(w, statements))
  {
    if statements != [] {
      RunIsGood(w, statements[..|statements| - 1]);
      StepIsGood(Run(w, statements[..|statements| - 1]), statements[|statements| - 1]);
    }
  }

  // ── Statements in a row are the call ────────────────────────────────────

  /** With nothing in between, the statements of a call of either service are the call that is handled in one step. */
  lemma RequestIsOneStep(w: World, s: R.State, email: string, now: int)
    requires s.rows == w.rows && s.nextToken == w.next && s.passwords == w.passwords && email in w.passwords
    ensures var w' := Step(Step(w, Clear(email, All)), Issue(email, now));
            var s' := R.Next(s, R.Request(R.Auth, email, now));
            w'.rows == s'.rows && w'.next == s'.nextToken && w'.passwords == s'.passwords
    ensures var w' := Step(Step(Step(w, Clear(email, Expired(now))), Clear(email, Unused)), Issue(email, now));
            var s' := R.Next(s, R.Request(R.PasswordReset, email, now));
            w'.rows == s'.rows && w'.next == s'.nextToken && w'.passwords == s'.passwords
  {
    assert Step(w, Clear(email, All)).rows == R.AfterClearing(R.Auth, w.rows, email, now);
    assert Step(Step(w, Clear(email, Expired(now))), Clear(email, Unused)).rows
        == R.AfterClearing(R.PasswordReset, w.rows, email, now);
  }

  lemma RedeemIsOneStep(via: R.Service, w: World, s: R.State, q: nat, token: nat, password: string, now: int)
    requires s.rows == w.rows && s.nextToken == w.next && s.passwords == w.passwords && q !in w.pending
    ensures var looked := Step(Step(w, Look(q, token, now)), FindAccount(q));
            var w' := Step(Step(looked, SetPassword(q, password)), MarkUsed(q, now));
            var s' := R.Next(s, R.Redeem(via, token, password, now));
            w'.rows == s'.rows && w'.next == s'.nextToken && w'.passwords == s'.passwords && w'.pending == w.pending
  {
    LookAndFind(w, q, token, now);
    SetAndMark(Step(Step(w, Look(q, token, now)), FindAccount(q)), q, password, now);
    hide Step;
  }

  lemma LookAndFind(w: World, q: nat, token: nat, now: int)
    requires q !in w.pending
    ensures var w' := Step(Step(w, Look(q, token, now)), FindAccount(q));
            && w'.rows == w.rows && w'.next == w.next && w'.passwords == w.passwords && w'.pending - {q} == w.pending
            && (q in w'.pending <==> Usable(w, token, now) && w.rows[token].email in w.passwords)
            && (q in w'.pending ==> w'.pending[q] == Found(token, w.rows[token].email))
  {
  }

  lemma SetAndMark(w: World, q: nat, password: string, now: int)
    requires q in w.pending ==>
               w.pending[q].Found? && w.pending[q].email in w.passwords && w.pending[q].token in w.rows
    ensures var w' := Step(Step(w, SetPassword(q, password)), MarkUsed(q, now));
            && w'.next == w.next && w'.pending == w.pending - {q}
            && if q in w.pending then
                 var token := w.pending[q].token;
                 && w'.passwords == w.passwords[w.pending[q].email := password]
                 && w'.rows == w.rows[token := w.rows[token].(usedAt := Some(now))]
               else w'.passwords == w.passwords && w'.rows == w.rows
  {
  }

  // ── One redeeming call at a time ────────────────────────────────────────

  /** No token changed two passwords, or could with what is in flight on it. */
  ghost predicate Exclusive(w: World) {
    && (forall i, j | 0 <= i < j < |w.changes| :: w.changes[i] != w.changes[j])
    && (forall q, r | q in w.pending && r in w.pending && w.pending[q].token == w.pending[r].token :: q == r)
    && (forall q | q in w.pending && !w.pending[q].Changed? :: w.pending[q].token !in w.changes)
  }

  /** The statement is a lookup that finds a usable token which another call in flight is redeeming. */
  ghost predicate Overlaps(w: World, s: Statement) {
    s.Look? && s.request !in w.pending && Usable(w, s.token, s.now) && exists q ::
        q in w.pending && w.pending[q].token == s.token
  }

  lemma LookExclusiveIff(w: World, s: Statement)
    requires Good(w) && Exclusive(w) && s.Look?
    ensures Exclusive(Step(w, s)) <==> !Overlaps(w, s)
  {
    var w' := Step(w, s);
    if s.request !in w.pending && Usable(w, s.token, s.now) {
      assert w'.pending[s.request].token == s.token;
      if q :| q in w.pending && w.pending[q].token == s.token {
        assert w'.pending[q].token == s.token;
      }
    }
  }

  lemma OthersKeepExclusive(w: World, s: Statement)
    requires Exclusive(w) && !s.Look?
    ensures Exclusive(Step(w, s))
  {
    var w' := Step(w, s);
    forall q | q in w'.pending
      ensures q in w.pending && w'.pending[q].token == w.pending[q].token && (!w'.pending[q].Changed? ==>
                !w.pending[q].Changed?)
    {}
    assert w'.changes == w.changes || w'.changes == w.changes + [w.pending[s.request].token];
  }

  /** One statement keeps it exactly unless it overlaps. */
  lemma StepExclusiveIff(w: World, s: Statement)
    requires Good(w) && Exclusive(w)
    ensures Exclusive(Step(w, s)) <==> !Overlaps(w, s)
  {
    if s.Look? { LookExclusiveIff(w, s); } else { OthersKeepExclusive(w, s); }
  }

  /** The world after the first `n` statements of a run from the empty tables. */
  function At(statements: seq<Statement>, n: nat): World
    requires n <= |statements|
  {
    Run(EMPTY, statements[..n])
  }

  lemma StepAt(statements: seq<Statement>, n: nat)
    requires n < |statements|
    ensures Good(At(statements, n)) && At(statements, n + 1) == Step(At(statements, n), statements[n])
  {
    RunIsGood(EMPTY, statements[..n]);
    assert statements[..n + 1][..n] == statements[..n];
  }

  lemma {:induction false} ExclusiveUntil(statements: seq<Statement>, n: nat)
    requires n <= |statements| && forall i | 0 <= i < |statements| :: !Overlaps(At(statements, i), statements[i])
    ensures Exclusive(At(statements, n))
  {
    if n > 0 {
      ExclusiveUntil(statements, n - 1);
      StepAt(statements, n - 1);
      StepExclusiveIff(At(statements, n - 1), statements[n - 1]);
    }
  }

  /** Along an interleaved run no token changes, or is under way to change, two passwords, all the time, exactly when no
      lookup of the run overlaps. */
  lemma RunExclusiveIff(statements: seq<Statement>)
    ensures (forall n | 0 <= n <= |statements| :: Exclusive(At(statements, n)))
            <==> (forall n | 0 <= n < |statements| :: !Overlaps(At(statements, n), statements[n]))
  {
    hide Exclusive, Overlaps, At;
    if forall n | 0 <= n <= |statements| :: Exclusive(At(statements, n)) {
      forall n | 0 <= n < |statements| ensures !Overlaps(At(statements, n), statements[n]) {
        StepAt(statements, n);
        StepExclusiveIff(At(statements, n), statements[n]);
      }
    }
    if forall n | 0 <= n < |statements| :: !Overlaps(At(statements, n), statements[n]) {
      forall n | 0 <= n <= |statements| ensures Exclusive(At(statements, n)) { ExclusiveUntil(statements, n); }
    }
  }

  /** The rest of a redeeming call up to its password change. */
  function Rest(q: nat): seq<Statement> {
    [FindAccount(q)] + [SetPassword(q, "new")]
  }

  lemma {:induction false} RunConcat(w: World, first: seq<Statement>, rest: seq<Statement>)
    ensures Run(w, first + rest) == Run(Run(w, first), rest)
  {
    if rest == [] {
      assert first + rest == first;
    } else {
      RunConcat(w, first, rest[..|rest| - 1]);
      assert (first + rest)[..|first + rest| - 1] == first + rest[..|rest| - 1];
      hide Step;
    }
  }

  lemma RunOne(w: World, s: Statement)
    ensures Run(w, [s]) == Step(w, s)
  {
    assert [s][..0] == [] && Run(w, []) == w;
  }

  lemma RestChanges(w: World, q: nat)
    requires q in w.pending && w.pending[q].Seen? && w.pending[q].email in w.passwords
    ensures var w' := Run(w, Rest(q));
            && w'.changes == w.changes + [w.pending[q].token] && w'.passwords.Keys == w.passwords.Keys
            && w'.pending - {q} == w.pending - {q}
  {
    RunOne(w, FindAccount(q));
    var w1 := Step(w, FindAccount(q));
    RunOne(w1, SetPassword(q, "new"));
    RunConcat(w, [FindAccount(q)], [SetPassword(q, "new")]);
    var w2 := Step(w1, SetPassword(q, "new"));
    assert w1.pending - {q} == w.pending - {q} && w2.pending - {q} == w1.pending - {q};
    assert w2.passwords.Keys == w.passwords.Keys;
    hide Step, Run;
  }

  /** From any point of any run, two unused requests can make a usable token of an existing account change its password
      twice: both look it up before either marks it. */
  lemma RacingRedeemsDouble(statements: seq<Statement>, token: nat, now: int, q: nat, r: nat)
    requires var w := Run(EMPTY, statements);
             Usable(w, token, now) && w.rows[token].email in w.passwords && q !in w.pending && r !in w.pending && q != r
    ensures exists later ::
              Run(EMPTY, statements + later).changes == Run(EMPTY, statements).changes + [token] + [token]
  {
    var w := Run(EMPTY, statements);
    var w1 := Step(w, Look(q, token, now));
    var w2 := Step(w1, Look(r, token, now));
    assert w1.pending == w.pending[q := Seen(token, w.rows[token].email)];
    assert w2.pending == w1.pending[r := Seen(token, w.rows[token].email)];
    assert w2.rows == w.rows && w2.passwords == w.passwords && w2.changes == w.changes;
    RunOne(w, Look(q, token, now));
    RunOne(w1, Look(r, token, now));
    RunConcat(w, [Look(q, token, now)], [Look(r, token, now)]);
    RestChanges(w2, q);
    var w3 := Run(w2, Rest(q));
    assert r in w2.pending - {q} && r in w3.pending && w3.pending[r] == w2.pending[r];
    RestChanges(w3, r);
    RunConcat(w2, Rest(q), Rest(r));
    RunConcat(w, [Look(q, token, now)] + [Look(r, token, now)], Rest(q) + Rest(r));
    var later := [Look(q, token, now)] + [Look(r, token, now)] + (Rest(q) + Rest(r));
    RunConcat(EMPTY, statements, later);
    hide Step, Run, Rest;
    assert Run(EMPTY, statements + later).changes == w.changes + [token] + [token];
  }

  // ── One usable token for an email ───────────────────────────────────────

  ghost predicate OneUnused(w: World) {
    forall a, b | a in w.rows && b in w.rows && w.rows[a].usedAt.None? && w.rows[b].usedAt.None?
        && w.rows[a].email == w.rows[b].email ::
      a == b
  }

  /** The statement issues a token for an email that still has an unused one. */
  ghost predicate IssuesAgain(w: World, s: Statement) {
    s.Issue? && exists t :: t in w.rows && w.rows[t].usedAt.None? && w.rows[t].email == s.email
  }

  /** One statement leaves every email with at most one unused token exactly unless it issues again. */
  lemma StepKeepsOneUnusedIff(w: World, s: Statement)
    requires Good(w) && OneUnused(w)
    ensures OneUnused(Step(w, s)) <==> !IssuesAgain(w, s)
  {
    var w' := Step(w, s);
    if s.Issue? {
      assert w'.rows[w.next].usedAt.None?;
      if t :| t in w.rows && w.rows[t].usedAt.None? && w.rows[t].email == s.email {
        assert w'.rows[t] == w.rows[t];
      }
    } else {
      forall t | t in w'.rows && w'.rows[t].usedAt.None? ensures t in w.rows && w'.rows[t] == w.rows[t] {}
    }
  }

  lemma {:induction false} OneUnusedUntil(statements: seq<Statement>, n: nat)
    requires n <= |statements| && forall i | 0 <= i < |statements| :: !IssuesAgain(At(statements, i), statements[i])
    ensures OneUnused(At(statements, n))
  {
    if n > 0 {
      OneUnusedUntil(statements, n - 1);
      StepAt(statements, n - 1);
      StepKeepsOneUnusedIff(At(statements, n - 1), statements[n - 1]);
    }
  }

  /** Along an interleaved run every email has at most one unused token, all the time, exactly when no statement issues
      again. */
  lemma RunKeepsOneUnusedIff(statements: seq<Statement>)
    ensures (forall n | 0 <= n <= |statements| :: OneUnused(At(statements, n)))
            <==> (forall n | 0 <= n < |statements| :: !IssuesAgain(At(statements, n), statements[n]))
  {
    hide OneUnused, IssuesAgain, At;
    if forall n | 0 <= n <= |statements| :: OneUnused(At(statements, n)) {
      forall n | 0 <= n < |statements| ensures !IssuesAgain(At(statements, n), statements[n]) {
        StepAt(statements, n);
        StepKeepsOneUnusedIff(At(statements, n), statements[n]);
      }
    }
    if forall n | 0 <= n < |statements| :: !IssuesAgain(At(statements, n), statements[n]) {
      forall n | 0 <= n <= |statements| ensures OneUnused(At(statements, n)) { OneUnusedUntil(statements, n); }
    }
  }
}
