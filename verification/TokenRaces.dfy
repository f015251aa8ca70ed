/** The same token calls with their database statements interleaved: a refresh looks its row up, marks it revoked, looks the
    account up and writes the new row as four separate statements, and any other statement may fall between them. */
module TokenRaces {
  import opened Wrappers
  import opened Tokens

  /** How far a refresh has come: which row it looked up, and at which tick. */
  datatype Progress = Seen(row: nat, at: nat) | Marked(row: nat, at: nat) | Ready(row: nat, at: nat)

  /** The rows, with bookkeeping: each row's predecessor, the tick of the lookup it came from, and the tick of the first
      write that revoked it. `tick` counts statements. */
  datatype World = World(
    rows: seq<Row>, nextJti: nat, pending: map<nat, Progress>, tick: nat,
    parent: seq<Option<nat>>, seenAt: seq<nat>, firstRevoked: seq<Option<nat>>)

  const EMPTY := World([], 0, map[], 0, [], [], [])

  datatype Statement =
    | CreateAtLogin(userId: nat, role: string, now: int)
    | Lookup(request: nat, token: Jwt, now: int)
    | Mark(request: nat, now: int)
    | FindAccount(request: nat, found: bool)
    | Create(request: nat, now: int)
    | RevokeRowsOf(userId: nat, now: int)                                     // the write of a logout

  function Append(cfg: Config, w: World, userId: nat, role: string, now: int, parent: Option<nat>, seenAt: nat): World {
    w.(rows := w.rows + [NewRow(cfg, w.nextJti, userId, role, now)], nextJti := w.nextJti + 1,
       parent := w.parent + [parent], seenAt := w.seenAt + [seenAt], firstRevoked := w.firstRevoked + [None])
  }

  function Stamp(first: Option<nat>, tick: nat): Option<nat> {
    if first.Some? then first else Some(tick)
  }

  function Execute(cfg: Config, w: World, statement: Statement): World
    requires Sized(w)
  {
    match statement
    case CreateAtLogin(userId, role, now) =>
      Append(cfg, w, userId, role, now, None, w.tick)
    case Lookup(request, token, now) =>
      var i := Find(w.rows, token);
      if request !in w.pending && Accepted(w.rows, i, token, now)
          then w.(pending := w.pending[request := Seen(i, w.tick)]) else w
    case Mark(request, now) =>
      if request in w.pending && w.pending[request].Seen? then
        var Seen(i, at) := w.pending[request];
        w.(rows := w.rows[i := w.rows[i].(revokedAt := Some(now))],
           firstRevoked := w.firstRevoked[i := Stamp(w.firstRevoked[i], w.tick)],
           pending := w.pending[request := Marked(i, at)])
      else w
    case FindAccount(request, found) =>
      if request in w.pending && w.pending[request].Marked? then
        var Marked(i, at) := w.pending[request];
        w.(pending := if found then w.pending[request := Ready(i, at)] else w.pending - {request})
      else w
    case Create(request, now) =>
      if request in w.pending && w.pending[request].Ready? then
        var Ready(i, at) := w.pending[request];
        Append(cfg, w, w.rows[i].token.sub, w.rows[i].userType, now, Some(i), at).(pending := w.pending - {request})
      else w
    case RevokeRowsOf(userId, now) =>
      w.(rows := RevokeAll(w.rows, userId, now),
         firstRevoked := seq(|w.rows|, i requires 0 <= i < |w.rows| =>
           if w.rows[i].userId == userId then Stamp(w.firstRevoked[i], w.tick) else w.firstRevoked[i]))
  }

  function Step(cfg: Config, w: World, statement: Statement): World
    requires Sized(w)
  {
    Execute(cfg, w, statement).(tick := w.tick + 1)
  }

  predicate Sized(w: World) {
    && |w.parent| == |w.rows| && |w.seenAt| == |w.rows| && |w.firstRevoked| == |w.rows|
    && forall q | q in w.pending :: w.pending[q].row < |w.rows|
  }

  /** A refresh in flight looked its row up before the row was first revoked. */
  ghost predicate InTime(w: World, p: Progress)
    requires Sized(w) && p.row < |w.rows|
  {
    && p.at < w.tick
    && (w.firstRevoked[p.row].Some? ==> p.at < w.firstRevoked[p.row].value)
    && (!p.Seen? ==> w.firstRevoked[p.row].Some?)
  }

  /** A row's bookkeeping: it is marked as revoked exactly when it is; a successor belongs to its predecessor's account and
      stems from a lookup made before the predecessor was first revoked. */
  ghost predicate Sound(w: World, i: nat)
    requires Sized(w) && i < |w.rows|
  {
    && w.rows[i].token.sub == w.rows[i].userId
    && (w.rows[i].revokedAt.Some? <==> w.firstRevoked[i].Some?)
    && (w.firstRevoked[i].Some? ==> w.firstRevoked[i].value < w.tick)
    && (w.parent[i].Some? ==>
          var p := w.parent[i].value;
          && p < i && w.rows[p].userId == w.rows[i].userId
          && w.firstRevoked[p].Some? && w.seenAt[i] < w.firstRevoked[p].value)
  }

  ghost predicate Good(w: World) {
    && Sized(w)
    && (forall i | 0 <= i < |w.rows| :: Sound(w, i))
    && (forall q | q in w.pending :: InTime(w, w.pending[q]))
  }

  /** What is never undone: rows stay, a revocation is never cleared, and its first time is never rewritten; a first
      revocation made since carries a tick of that time. */
  ghost predicate Extends(w: World, w': World)
    requires Sized(w) && Sized(w')
  {
    && |w.rows| <= |w'.rows| && w.tick <= w'.tick
    && forall i | 0 <= i < |w.rows| :: RowExtends(w, w', i)
  }

  ghost predicate RowExtends(w: World, w': World, i: nat)
    requires Sized(w) && Sized(w') && i < |w.rows| <= |w'.rows|
  {
    && w'.rows[i].(revokedAt := w.rows[i].revokedAt) == w.rows[i]
    && w'.parent[i] == w.parent[i] && w'.seenAt[i] == w.seenAt[i]
    && (w.rows[i].revokedAt.Some? ==> w'.rows[i].revokedAt.Some?)
    && (w.firstRevoked[i].Some? ==> w'.firstRevoked[i] == w.firstRevoked[i])
    && (w.firstRevoked[i].None? && w'.firstRevoked[i].Some? ==> w.tick <= w'.firstRevoked[i].value)
  }

  lemma StepExtends(cfg: Config, w: World, statement: Statement)
    requires Sized(w)
    ensures var w' := Step(cfg, w, statement); Sized(w') && w'.tick == w.tick + 1 && Extends(w, w')
  {
  }

  /** Rows that were there, and refreshes in flight, keep their bookkeeping when the world grows. */
  lemma StaysSound(w: World, w': World, i: nat)
    requires Sized(w) && Sized(w') && Extends(w, w') && i < |w.rows| && Sound(w, i)
    requires w'.rows[i].revokedAt.Some? <==> w'.firstRevoked[i].Some?
    requires w'.firstRevoked[i].Some? ==> w'.firstRevoked[i].value < w'.tick
    ensures Sound(w', i)
  {
    assert RowExtends(w, w', i);
    if w.parent[i].Some? { assert RowExtends(w, w', w.parent[i].value); }
  }

  lemma StepKeepsRows(cfg: Config, w: World, statement: Statement, i: nat)
    requires Good(w) && i < |w.rows|
    ensures Sized(Step(cfg, w, statement)) && |w.rows| <= |Step(cfg, w, statement).rows| && Sound(Step(cfg, w, statement), i)
  {
    StepExtends(cfg, w, statement);
    assert Sound(w, i) && RowExtends(w, Step(cfg, w, statement), i);
    StaysSound(w, Step(cfg, w, statement), i);
  }

  lemma StepKeepsPending(cfg: Config, w: World, statement: Statement, q: nat)
    requires Good(w) && q in Step(cfg, w, statement).pending
    ensures Sized(Step(cfg, w, statement)) && InTime(Step(cfg, w, statement), Step(cfg, w, statement).pending[q])
  {
    StepExtends(cfg, w, statement);
    var w' := Step(cfg, w, statement);
    if q in w.pending {
      assert InTime(w, w.pending[q]) && RowExtends(w, w', w.pending[q].row);
    } else {
      assert Sound(w, w'.pending[q].row);
    }
  }

  lemma StepAddsSoundRow(cfg: Config, w: World, statement: Statement)
    requires Good(w) && |Step(cfg, w, statement).rows| > |w.rows|
    ensures Sized(Step(cfg, w, statement)) && |Step(cfg, w, statement).rows| == |w.rows| + 1
              && Sound(Step(cfg, w, statement), |w.rows|)
  {
    StepExtends(cfg, w, statement);
    if statement.Create? {
      var p := w.pending[statement.request];
      assert InTime(w, p) && Sound(w, p.row);
    }
  }

  lemma StepIsGood(cfg: Config, w: World, statement: Statement)
    requires Good(w)
    ensures Good(Step(cfg, w, statement)) && Extends(w, Step(cfg, w, statement))
  {
    var w' := Step(cfg, w, statement);
    StepExtends(cfg, w, statement);
    if |w'.rows| > |w.rows| { StepAddsSoundRow(cfg, w, statement); }
    hide Step, Sound, InTime;
    forall i | 0 <= i < |w'.rows| ensures Sound(w', i) {
      if i < |w.rows| { StepKeepsRows(cfg, w, statement, i); }
    }
    forall q | q in w'.pending ensures InTime(w', w'.pending[q]) { StepKeepsPending(cfg, w, statement, q); }
  }

  ghost function Run(cfg: Config, w: World, statements: seq<Statement>): (w': World)
    requires Good(w)
    ensures Good(w') && |w.rows| <= |w'.rows|
  {
    if statements == [] then w
    else
      var before := Run(cfg, w, statements[..|statements| - 1]);
      StepIsGood(cfg, before, statements[|statements| - 1]);
      Step(cfg, before, statements[|statements| - 1])
  }

  lemma {:induction false} RunExtends(cfg: Config, w: World, statements: seq<Statement>)
    requires Good(w)
    ensures Extends(w, Run(cfg, w, statements))
  {
    hide Step, Sound, InTime;
    if statements != [] {
      var before := Run(cfg, w, statements[..|statements| - 1]);
      RunExtends(cfg, w, statements[..|statements| - 1]);
      StepIsGood(cfg, before, statements[|statements| - 1]);
      var w' := Run(cfg, w, statements);
      forall i | 0 <= i < |w.rows| ensures RowExtends(w, w', i) {
        assert RowExtends(w, before, i) && RowExtends(before, w', i);
      }
    }
  }

  lemma {:induction false} RunConcat(cfg: Config, w: World, first: seq<Statement>, rest: seq<Statement>)
    requires Good(w)
    ensures Run(cfg, w, first + rest) == Run(cfg, Run(cfg, w, first), rest)
  {
    if rest == [] {
      assert first + rest == first;
    } else {
      var n := |rest| - 1;
      RunConcat(cfg, w, first, rest[..n]);
      assert (first + rest)[..|first + rest| - 1] == first + rest[..n];
      hide Step, Good;
    }
  }

  lemma RunOne(cfg: Config, w: World, statement: Statement)
    requires Good(w)
    ensures Run(cfg, w, [statement]) == Step(cfg, w, statement)
  {
    assert [statement][..0] == [];
    assert Run(cfg, w, []) == w;
  }

  /** A run that starts with a statement goes on from there. */
  lemma RunFirst(cfg: Config, w: World, statement: Statement, later: seq<Statement>)
    requires Good(w)
    ensures Good(Step(cfg, w, statement))
    ensures Run(cfg, w, [statement] + later) == Run(cfg, Step(cfg, w, statement), later)
  {
    StepIsGood(cfg, w, statement);
    RunConcat(cfg, w, [statement], later);
    RunOne(cfg, w, statement);
    hide Step, Good;
  }

  // ── Statements in a row are the call ────────────────────────────────────

  lemma LookupAndMark(cfg: Config, w: World, q: nat, token: Jwt, now: int)
    requires Good(w) && q !in w.pending
    ensures Good(Step(cfg, w, Lookup(q, token, now)))
    ensures var w2 := Step(cfg, Step(cfg, w, Lookup(q, token, now)), Mark(q, now));
            var i := Find(w.rows, token);
            && Good(w2) && w2.nextJti == w.nextJti
            && if Accepted(w.rows, i, token, now) then
                 w2.rows == w.rows[i := w.rows[i].(revokedAt := Some(now))] && q in w2.pending
                 && w2.pending[q] == Marked(i, w.tick) && w2.pending - {q} == w.pending
               else w2.rows == w.rows && w2.pending == w.pending
  {
    StepIsGood(cfg, w, Lookup(q, token, now));
    StepIsGood(cfg, Step(cfg, w, Lookup(q, token, now)), Mark(q, now));
    hide Good, Find, Accepted, Extends;
  }

  lemma FindAndCreate(cfg: Config, w: World, q: nat, found: bool, now: int)
    requires Good(w) && (q in w.pending ==> w.pending[q].Marked?)
    ensures Good(Step(cfg, w, FindAccount(q, found)))
    ensures var w2 := Step(cfg, Step(cfg, w, FindAccount(q, found)), Create(q, now));
            && Good(w2) && w2.pending == w.pending - {q}
            && if q in w.pending && found then
                 var row := w.rows[w.pending[q].row];
                 w2.rows == w.rows + [NewRow(cfg, w.nextJti, row.token.sub, row.userType, now)]
                     && w2.nextJti == w.nextJti + 1
               else w2.rows == w.rows && w2.nextJti == w.nextJti
  {
    StepIsGood(cfg, w, FindAccount(q, found));
    StepIsGood(cfg, Step(cfg, w, FindAccount(q, found)), Create(q, now));
    hide Good, Extends;
  }

  /** With nothing in between, the statements of a refresh are the refresh that is handled in one step, whether it is accepted
      or not. */
  lemma UninterruptedIsOneStep(cfg: Config, w: World, s: State, q: nat, token: Jwt, found: bool, now: int)
    requires Good(w) && q !in w.pending
    requires s.rows == w.rows && s.nextJti == w.nextJti && |s.session| == |s.rows|
    ensures var w' := Run(cfg, w, [Lookup(q, token, now), Mark(q, now), FindAccount(q, found), Create(q, now)]);
            var s' := Tokens.Next(cfg, s, Refresh(token, found, now));
            w'.rows == s'.rows && w'.nextJti == s'.nextJti && w'.pending == w.pending
  {
    LookupAndMark(cfg, w, q, token, now);
    var w2 := Step(cfg, Step(cfg, w, Lookup(q, token, now)), Mark(q, now));
    FindAndCreate(cfg, w2, q, found, now);
    FourSteps(cfg, w, Lookup(q, token, now), Mark(q, now), FindAccount(q, found), Create(q, now));
    AcceptedNamesAccount(w, Find(w.rows, token), token, now);
    hide Run, Good, Find, Step;
  }

  /** The one write of a login, and of a logout that takes effect, does what the call does that is handled in one step. */
  lemma OneWriteIsOneStep(cfg: Config, w: World, s: State, userId: nat, role: string, bearer: Jwt, now: int)
    requires Good(w) && s.rows == w.rows && s.nextJti == w.nextJti && |s.session| == |s.rows|
    ensures var w', s' := Run(cfg, w, [CreateAtLogin(userId, role, now)]), Tokens.Next(cfg, s, Login(userId, role, now));
            w'.rows == s'.rows && w'.nextJti == s'.nextJti
    ensures LogoutTakesEffect(s, bearer, true, now) ==>
              var w' := Run(cfg, w, [RevokeRowsOf(bearer.sub, now)]);
              w'.rows == Tokens.Next(cfg, s, Logout(bearer, true, now)).rows
  {
    RunOne(cfg, w, CreateAtLogin(userId, role, now));
    RunOne(cfg, w, RevokeRowsOf(bearer.sub, now));
    hide Run, Good;
  }

  lemma AcceptedNamesAccount(w: World, i: nat, token: Jwt, now: int)
    requires Good(w)
    ensures Accepted(w.rows, i, token, now) ==> w.rows[i].token == token
  {
  }

  lemma FourSteps(cfg: Config, w: World, a: Statement, b: Statement, c: Statement, d: Statement)
    requires Good(w)
    ensures Good(Step(cfg, w, a)) && Good(Step(cfg, Step(cfg, w, a), b))
    ensures Good(Step(cfg, Step(cfg, Step(cfg, w, a), b), c))
    ensures Run(cfg, w, [a, b, c, d]) == Step(cfg, Step(cfg, Step(cfg, Step(cfg, w, a), b), c), d)
  {
    assert [a, b, c, d] == [a] + [b, c, d] && [b, c, d] == [b] + [c, d] && [c, d] == [c] + [d];
    RunFirst(cfg, w, a, [b, c, d]);
    RunFirst(cfg, Step(cfg, w, a), b, [c, d]);
    RunFirst(cfg, Step(cfg, Step(cfg, w, a), b), c, [d]);
    RunOne(cfg, Step(cfg, Step(cfg, Step(cfg, w, a), b), c), d);
    hide Step, Good, Run;
  }

  // ── What interleaving keeps ─────────────────────────────────────────────

  /** Once a revocation has been written to a row, no later lookup of its token is accepted, however the statements fall. */
  lemma RevokedStaysRefused(cfg: Config, w: World, i: nat, statements: seq<Statement>, token: Jwt, now: int)
    requires Good(w) && i < |w.rows| && w.rows[i].revokedAt.Some? && w.rows[i].token == token
    ensures !Accepted(Run(cfg, w, statements).rows, i, token, now)
    ensures Run(cfg, w, statements).firstRevoked[i] == w.firstRevoked[i]
  {
    RunExtends(cfg, w, statements);
    assert Sound(w, i) && RowExtends(w, Run(cfg, w, statements), i);
  }

  /** Every row made by a refresh, also one of several racing on the same token, comes from a lookup made before the first
      write that revoked its predecessor. */
  lemma SuccessorsWereSeenInTime(cfg: Config, statements: seq<Statement>, i: nat)
    requires i < |Run(cfg, EMPTY, statements).rows| && Run(cfg, EMPTY, statements).parent[i].Some?
    ensures var w := Run(cfg, EMPTY, statements);
            var p := w.parent[i].value;
            && p < i && w.rows[p].userId == w.rows[i].userId && w.rows[p].revokedAt.Some?
            && w.firstRevoked[p].Some? && w.seenAt[i] < w.firstRevoked[p].value
  {
    var w := Run(cfg, EMPTY, statements);
    assert Sound(w, i);
    assert Sound(w, w.parent[i].value);
  }

  /** Going back from row `i`, a row created since the table had `n` rows at `tick`: a login made since, or a refresh whose
      lookup came before that tick. */
  ghost predicate SinceOrStraddling(w: World, i: nat, n: nat, tick: nat)
    requires Sized(w) && i < |w.rows|
  {
    && n <= i
    && (|| w.parent[i].None?
        || w.seenAt[i] < tick
        || (w.parent[i].value < i && SinceOrStraddling(w, w.parent[i].value, n, tick)))
  }

  /** A logout under an account number, and whatever comes later. */
  ghost function AfterLogout(cfg: Config, w: World, userId: nat, now: int, later: seq<Statement>): (w': World)
    requires Good(w)
    ensures Good(w') && |w.rows| <= |w'.rows|
  {
    Run(cfg, w, [RevokeRowsOf(userId, now)] + later)
  }

  /** Rows stay under their account number; and one the logout's write reached stays revoked, first at that write or before. */
  lemma ReachedByLogout(cfg: Config, w: World, userId: nat, now: int, later: seq<Statement>, i: nat)
    requires Good(w) && i < |w.rows|
    ensures var w' := AfterLogout(cfg, w, userId, now, later);
            && w'.rows[i].userId == w.rows[i].userId
            && (w.rows[i].userId == userId ==>
                  w'.rows[i].revokedAt.Some? && w'.firstRevoked[i].Some? && w'.firstRevoked[i].value <= w.tick)
  {
    var w0 := Step(cfg, w, RevokeRowsOf(userId, now));
    RunFirst(cfg, w, RevokeRowsOf(userId, now), later);
    RunExtends(cfg, w0, later);
    assert RowExtends(w0, Run(cfg, w0, later), i) && Sound(w, i);
  }

  /** An interleaved logout ends every session under its account number, except for refreshes that had done their lookup
      before it: a row of that number that is live later, or was created since, goes back to a login made since, or passes
      through such a refresh. */
  lemma {:induction false} LogoutSparesOnlyStraddlers(cfg: Config, w: World, userId: nat, now: int,
        later: seq<Statement>, i: nat)
    requires Good(w)
    requires var w' := AfterLogout(cfg, w, userId, now, later);
             && i < |w'.rows| && w'.rows[i].userId == userId
             && (|w.rows| <= i || w'.rows[i].revokedAt.None?)
    ensures SinceOrStraddling(AfterLogout(cfg, w, userId, now, later), i, |w.rows|, w.tick)
  {
    var w' := AfterLogout(cfg, w, userId, now, later);
    if i < |w.rows| {
      ReachedByLogout(cfg, w, userId, now, later, i);
    } else if w'.parent[i].Some? {
      var p := w'.parent[i].value;
      assert Sound(w', i);
      if p < |w.rows| {
        ReachedByLogout(cfg, w, userId, now, later, p);
      } else {
        LogoutSparesOnlyStraddlers(cfg, w, userId, now, later, p);
      }
    }
  }
}
