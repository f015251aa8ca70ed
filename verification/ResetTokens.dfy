/** Password-reset tokens: two services issue and redeem them over one table. */
module ResetTokens {
  import opened Wrappers

  /** Times are in milliseconds. */
  datatype Row = Row(email: string, expiresAt: int, usedAt: Option<int>)

  datatype Issue = Issue(email: string, at: int)
  datatype Change = Change(token: nat, email: string, at: int)

  /** The token table (a token is fresh random bytes, here a number never used before) and the accounts' passwords; as
      bookkeeping, what was issued, the latest token of each email, and every password change made with a token. */
  datatype State = State(
    rows: map<nat, Row>, nextToken: nat, passwords: map<string, string>,
    issued: map<nat, Issue>, latest: map<string, nat>, changes: seq<Change>)

  datatype Service = Auth | PasswordReset

  datatype Step =
    | Request(via: Service, email: string, now: int)
    | Redeem(via: Service, token: nat, password: string, now: int)
    | EditAccounts(passwords: map<string, string>)                    // accounts come, go and change by other means

  const ONE_HOUR := 60 * 60 * 1000

  /** The rows of `email` a service clears before it issues a token: all of them, or the expired and the unused ones. */
  predicate Cleared(via: Service, row: Row, email: string, now: int) {
    row.email == email && (via == Auth || row.expiresAt < now || row.usedAt.None?)
  }

  function AfterClearing(via: Service, rows: map<nat, Row>, email: string, now: int): map<nat, Row> {
    map token | token in rows && !Cleared(via, rows[token], email, now) :: rows[token]
  }

  /** `forgotPassword` and `requestReset`. */
  function Requested(via: Service, s: State, email: string, now: int): State {
    if email !in s.passwords then s
    else
      s.(rows := AfterClearing(via, s.rows, email, now)[s.nextToken := Row(email, now + ONE_HOUR, None)],
         nextToken := s.nextToken + 1,
         issued := s.issued[s.nextToken := Issue(email, now)], latest := s.latest[email := s.nextToken])
  }

  /** What a service says of a token it does not know, and of an account that is gone. */
  function Missing(via: Service): Failure {
    if via == Auth then BadRequest else NotFound
  }

  /** `resetPassword` of either service. */
  function Redeemed(via: Service, s: State, token: nat, password: string, now: int): (State, Result<Unit>) {
    if token !in s.rows then (s, Err(Missing(via)))
    else
      var row := s.rows[token];
      if row.usedAt.Some? then (s, Err(BadRequest))
      else if row.expiresAt < now then (s, Err(BadRequest))
      else if row.email !in s.passwords then (s, Err(Missing(via)))
      else
        (s.(passwords := s.passwords[row.email := password], rows := s.rows[token := row.(usedAt := Some(now))],
            changes := s.changes + [Change(token, row.email, now)]),
         Ok(Done))
  }

  // ── What a call leaves ──────────────────────────────────────────────────

  /** Asking for a reset changes no password and no row of another email. For an email with an account it issues a token
      never issued before, valid for an hour and not used yet; of the email's older rows the authentication service leaves
      none, and the password-reset service those that were used and have not expired. For an unknown email nothing happens. */
  lemma RequestMeaning(via: Service, s: State, email: string, now: int, token: nat)
    ensures var s' := Next(s, Request(via, email, now));
            && s'.passwords == s.passwords
            && (email !in s.passwords ==> s' == s)
            && (email in s.passwords ==>
                  && s'.nextToken == s.nextToken + 1
                  && s.nextToken in s'.rows && s'.rows[s.nextToken] == Row(email, now + 3600000, None))
            && (email in s.passwords && token != s.nextToken ==>
                  && (token in s'.rows <==>
                        && token in s.rows
                        && (s.rows[token].email == email ==>
                              via == PasswordReset && s.rows[token].usedAt.Some? && now <= s.rows[token].expiresAt))
                  && (token in s'.rows ==> s'.rows[token] == s.rows[token]))
  {
  }

  /** A token is redeemed if and only if its row is there, unused and not expired, and its email has an account. Then that
      account's password is the one supplied, the row is used, and nothing else changes. Otherwise nothing does, and the
      answer says which: the two services differ in what they say of a missing row or account. */
  lemma RedeemMeaning(via: Service, s: State, token: nat, password: string, now: int)
    ensures var (s', r) := Redeemed(via, s, token, password, now);
            var missing := token !in s.rows;
            var stale := !missing && (s.rows[token].usedAt.Some? || s.rows[token].expiresAt < now);
            var orphan := !missing && s.rows[token].email !in s.passwords;
            && s' == Next(s, Redeem(via, token, password, now))
            && (r.Ok? <==> !missing && !stale && !orphan)
            && (r.Err? ==> s' == s)
            && (stale ==> r == Err(BadRequest))
            && (missing || (orphan && !stale) ==> r == Err(if via == PasswordReset then NotFound else BadRequest))
            && (r.Ok? ==>
                  && (forall email :: email in s'.passwords <==> email in s.passwords)
                  && (forall email | email in s'.passwords ::
                        s'.passwords[email] == if email == s.rows[token].email then password else s.passwords[email])
                  && (forall other :: other in s'.rows <==> other in s.rows)
                  && (forall other | other in s'.rows && other != token :: s'.rows[other] == s.rows[other])
                  && s'.rows[token] == Row(s.rows[token].email, s.rows[token].expiresAt, Some(now)))
  {
  }

  function Next(s: State, step: Step): State {
    match step
    case Request(via, email, now) => Requested(via, s, email, now)
    case Redeem(via, token, password, now) => Redeemed(via, s, token, password, now).0
    case EditAccounts(passwords) => s.(passwords := passwords)
  }

  const INITIAL := State(map[], 0, map[], map[], map[], [])

  function Run(s: State, steps: seq<Step>): State {
    if steps == [] then s else Next(Run(s, steps[..|steps| - 1]), steps[|steps| - 1])
  }

  // ── What every run keeps ────────────────────────────────────────────────

  ghost predicate RowsAreIssues(s: State) {
    && (forall token | token in s.issued :: token < s.nextToken)
    && (forall token | token in s.rows ::
          token in s.issued && s.rows[token].email == s.issued[token].email
              && s.rows[token].expiresAt == s.issued[token].at + ONE_HOUR)
  }

  /** An unused row is that of its email's latest token. */
  ghost predicate OnlyLatestLives(s: State) {
    forall token | token in s.rows && s.rows[token].usedAt.None? ::
      s.rows[token].email in s.latest && s.latest[s.rows[token].email] == token
  }

  /** A password was changed within the hour for the email its token was issued to, and that token, if its row is still
      there, is used. */
  ghost predicate ChangeIsSound(s: State, change: Change) {
    && change.token in s.issued && s.issued[change.token].email == change.email
    && change.at <= s.issued[change.token].at + ONE_HOUR
    && (change.token in s.rows ==> s.rows[change.token].usedAt.Some?)
  }

  ghost predicate ChangesAreSound(s: State) {
    && (forall i | 0 <= i < |s.changes| :: ChangeIsSound(s, s.changes[i]))
    && (forall i, j | 0 <= i < j < |s.changes| :: s.changes[i].token != s.changes[j].token)
  }

  ghost predicate Good(s: State) {
    RowsAreIssues(s) && OnlyLatestLives(s) && ChangesAreSound(s)
  }

  lemma RequestKeepsGood(via: Service, s: State, email: string, now: int)
    requires Good(s)
    ensures Good(Requested(via, s, email, now))
  {
    var s' := Requested(via, s, email, now);
    forall i | 0 <= i < |s'.changes| ensures ChangeIsSound(s', s'.changes[i]) {
      assert ChangeIsSound(s, s.changes[i]);
    }
  }

  lemma RedeemKeepsGood(via: Service, s: State, token: nat, password: string, now: int)
    requires Good(s)
    ensures Good(Redeemed(via, s, token, password, now).0)
  {
    var s' := Redeemed(via, s, token, password, now).0;
    forall i | 0 <= i < |s'.changes| ensures ChangeIsSound(s', s'.changes[i]) {
      if i < |s.changes| { assert ChangeIsSound(s, s.changes[i]); }
    }
    forall i, j | 0 <= i < j < |s'.changes| ensures s'.changes[i].token != s'.changes[j].token {
      assert ChangeIsSound(s, s.changes[i]);
    }
  }

  lemma {:induction false} RunKeepsGood(s: State, steps: seq<Step>)
    requires Good(s)
    ensures Good(Run(s, steps))
  {
    if steps != [] {
      var before := Run(s, steps[..|steps| - 1]);
      RunKeepsGood(s, steps[..|steps| - 1]);
      match steps[|steps| - 1]
      case Request(via, email, now) => RequestKeepsGood(via, before, email, now);
      case Redeem(via, token, password, now) => RedeemKeepsGood(via, before, token, password, now);
      case EditAccounts(passwords) =>
        forall i | 0 <= i < |before.changes| ensures ChangeIsSound(before.(passwords := passwords), before.changes[i]) {
          assert ChangeIsSound(before, before.changes[i]);
        }
    }
  }

  /** Over every mixed run of both services: an email has at most one unused token; a token that is accepted is the latest
      one issued for its email; no token ever changes a second password; and every change came within an hour of the
      token's issue, for the email it was issued to. */
  lemma TokensAreOneShot(steps: seq<Step>)
    ensures var s := Run(INITIAL, steps);
            && (forall a, b | a in s.rows && b in s.rows && s.rows[a].usedAt.None? && s.rows[b].usedAt.None?
                              && s.rows[a].email == s.rows[b].email :: a == b)
            && (forall via: Service, token: nat, password: string, now: int | Redeemed(via, s, token, password, now).1.Ok? ::
                  s.rows[token].email in s.latest && s.latest[s.rows[token].email] == token)
            && (forall i, j | 0 <= i < j < |s.changes| :: s.changes[i].token != s.changes[j].token)
            && (forall i | 0 <= i < |s.changes| ::
                  && s.changes[i].token in s.issued
                  && s.issued[s.changes[i].token].email == s.changes[i].email
                  && s.changes[i].at <= s.issued[s.changes[i].token].at + ONE_HOUR)
  {
    RunKeepsGood(INITIAL, steps);
    var s := Run(INITIAL, steps);
    assert forall i | 0 <= i < |s.changes| :: ChangeIsSound(s, s.changes[i]);
  }

  // ── Which service is asked makes no difference ──────────────────────────

  /** The unused rows; all a redeemer can use. */
  function Unused(rows: map<nat, Row>): map<nat, Row> {
    map token | token in rows && rows[token].usedAt.None? :: rows[token]
  }

  /** Alike but for rows that are used. */
  ghost predicate Alike(s: State, s': State) {
    s'.(rows := s.rows) == s && Unused(s.rows) == Unused(s'.rows)
  }

  function By(step: Step, via: Service): Step {
    match step
    case Request(_, email, now) => Request(via, email, now)
    case Redeem(_, token, password, now) => Redeem(via, token, password, now)
    case EditAccounts(_) => step
  }

  /** Two steps that differ only in the service. */
  ghost predicate SameCall(a: Step, b: Step) {
    By(a, Auth) == By(b, Auth)
  }

  lemma UnusedMeaning(rows: map<nat, Row>, token: nat)
    ensures token in Unused(rows) <==> token in rows && rows[token].usedAt.None?
    ensures token in Unused(rows) ==> Unused(rows)[token] == rows[token]
  {
  }

  /** What is usable after clearing depends only on what was usable, and not on the service. */
  lemma ClearedAlike(a: Service, rows: map<nat, Row>, email: string, now: int, token: nat)
    ensures token in Unused(AfterClearing(a, rows, email, now)) <==>
              token in Unused(rows) && Unused(rows)[token].email != email
    ensures token in Unused(AfterClearing(a, rows, email, now)) ==>
              Unused(AfterClearing(a, rows, email, now))[token] == Unused(rows)[token]
  {
  }

  lemma RequestsAlike(a: Service, b: Service, s: State, s': State, email: string, now: int)
    requires Alike(s, s')
    ensures Alike(Requested(a, s, email, now), Requested(b, s', email, now))
  {
    var cleared, cleared' := AfterClearing(a, s.rows, email, now), AfterClearing(b, s'.rows, email, now);
    forall token ensures token in Unused(cleared) <==> token in Unused(cleared')
                 ensures token in Unused(cleared) ==> Unused(cleared)[token] == Unused(cleared')[token] {
      ClearedAlike(a, s.rows, email, now, token);
      ClearedAlike(b, s'.rows, email, now, token);
    }
    assert Unused(cleared) == Unused(cleared');
    UnusedInsert(cleared, s.nextToken, Row(email, now + ONE_HOUR, None));
    UnusedInsert(cleared', s.nextToken, Row(email, now + ONE_HOUR, None));
    hide Unused, AfterClearing;
  }

  lemma UnusedInsert(rows: map<nat, Row>, token: nat, row: Row)
    requires row.usedAt.None?
    ensures Unused(rows[token := row]) == Unused(rows)[token := row]
  {
  }

  lemma RedeemsAlike(a: Service, b: Service, s: State, s': State, token: nat, password: string, now: int)
    requires Alike(s, s')
    ensures Alike(Redeemed(a, s, token, password, now).0, Redeemed(b, s', token, password, now).0)
    ensures Redeemed(a, s, token, password, now).1.Ok? <==> Redeemed(b, s', token, password, now).1.Ok?
  {
    UnusedMeaning(s.rows, token);
    UnusedMeaning(s'.rows, token);
    var r, r' := Redeemed(a, s, token, password, now).0, Redeemed(b, s', token, password, now).0;
    forall t ensures t in Unused(r.rows) <==> t in Unused(r'.rows)
             ensures t in Unused(r.rows) ==> Unused(r.rows)[t] == Unused(r'.rows)[t] {
      UnusedMeaning(s.rows, t);
      UnusedMeaning(s'.rows, t);
    }
    assert Unused(r.rows) == Unused(r'.rows);
  }

  /** Two runs of the same calls, each handled by either service at every step, end with the same passwords and the same
      usable tokens, and accept the same tokens next. */
  lemma {:induction false} ServicesAgree(steps: seq<Step>, steps': seq<Step>, a: Service, b: Service, token: nat,
        password: string, now: int)
    requires |steps| == |steps'| && forall i | 0 <= i < |steps| :: SameCall(steps[i], steps'[i])
    ensures var s, s' := Run(INITIAL, steps), Run(INITIAL, steps');
            && Alike(s, s')
            && (Redeemed(a, s, token, password, now).1.Ok? <==> Redeemed(b, s', token, password, now).1.Ok?)
  {
    if steps != [] {
      var n := |steps| - 1;
      ServicesAgree(steps[..n], steps'[..n], a, b, token, password, now);
      assert SameCall(steps[n], steps'[n]);
      var s, s' := Run(INITIAL, steps[..n]), Run(INITIAL, steps'[..n]);
      match steps[n]
      case Request(via, email, at) => RequestsAlike(via, steps'[n].via, s, s', email, at);
      case Redeem(via, tok, pass, at) => RedeemsAlike(via, steps'[n].via, s, s', tok, pass, at);
      case EditAccounts(passwords) =>
    }
    RedeemsAlike(a, b, Run(INITIAL, steps), Run(INITIAL, steps'), token, password, now);
  }

  /** The two `deleteMany` of `requestReset`. */
  function WithoutExpired(rows: map<nat, Row>, email: string, now: int): map<nat, Row> {
    map token | token in rows && !(rows[token].email == email && rows[token].expiresAt < now) :: rows[token]
  }

  function WithoutUnused(rows: map<nat, Row>, email: string): map<nat, Row> {
    map token | token in rows && !(rows[token].email == email && rows[token].usedAt.None?) :: rows[token]
  }

  lemma TwoDeletesClear(rows: map<nat, Row>, email: string, now: int)
    ensures WithoutUnused(WithoutExpired(rows, email, now), email) == AfterClearing(PasswordReset, rows, email, now)
  {
  }

  // ── The services, on their shared table ─────────────────────────────────

  class Database {
    var rows: map<nat, Row>
    var nextToken: nat
    var passwords: map<string, string>
    ghost var issued: map<nat, Issue>
    ghost var latest: map<string, nat>
    ghost var changes: seq<Change>

    ghost function Snapshot(): State
      reads this
    {
      State(rows, nextToken, passwords, issued, latest, changes)
    }

    ghost predicate Valid()
      reads this
    {
      Good(Snapshot())
    }

    constructor ()
      ensures Valid() && Snapshot() == INITIAL
    {
      rows, nextToken, passwords := map[], 0, map[];
      issued, latest, changes := map[], map[], [];
    }

    /** `passwordResetToken.create` with fresh random bytes. */
    method CreateToken(email: string, now: int)
      modifies this
      ensures Snapshot() ==
              var s := old(Snapshot());
              s.(rows := s.rows[s.nextToken := Row(email, now + ONE_HOUR, None)], nextToken := s.nextToken + 1,
                 issued := s.issued[s.nextToken := Issue(email, now)], latest := s.latest[email := s.nextToken])
    {
      var expiresAt := now + 60 * 60 * 1000;
      rows := rows[nextToken := Row(email, expiresAt, None)];
      issued, latest := issued[nextToken := Issue(email, now)], latest[email := nextToken];
      nextToken := nextToken + 1;
    }

    /** `forgotPassword` of the authentication service. */
    method ForgotPassword(email: string, now: int)
      requires Valid()
      modifies this
      ensures Valid() && Snapshot() == Requested(Auth, old(Snapshot()), email, now)
    {
      RequestKeepsGood(Auth, Snapshot(), email, now);
      if email !in passwords { return; }
      rows := map token | token in rows && rows[token].email != email :: rows[token];
      assert rows == AfterClearing(Auth, old(rows), email, now);
      CreateToken(email, now);
    }

    /** `requestReset` of the password-reset service. */
    method RequestReset(email: string, now: int)
      requires Valid()
      modifies this
      ensures Valid() && Snapshot() == Requested(PasswordReset, old(Snapshot()), email, now)
    {
      RequestKeepsGood(PasswordReset, Snapshot(), email, now);
      TwoDeletesClear(rows, email, now);
      hide Good, AfterClearing, WithoutExpired, WithoutUnused;
      if email !in passwords { return; }
      rows := WithoutExpired(rows, email, now);
      rows := WithoutUnused(rows, email);
      CreateToken(email, now);
    }

    /** `resetPassword` of either service; they differ in the exceptions for what they cannot find. */
    method ResetPassword(via: Service, token: nat, newPassword: string, now: int) returns (r: Result<Unit>)
      requires Valid()
      modifies this
      ensures Valid() && (Snapshot(), r) == Redeemed(via, old(Snapshot()), token, newPassword, now)
    {
      RedeemKeepsGood(via, Snapshot(), token, newPassword, now);
      if token !in rows { return Err(Missing(via)); }
      if rows[token].usedAt.Some? { return Err(BadRequest); }
      if rows[token].expiresAt < now { return Err(BadRequest); }
      var email := rows[token].email;
      if email !in passwords { return Err(Missing(via)); }
      passwords := passwords[email := newPassword];
      changes := changes + [Change(token, email, now)];
      rows := rows[token := rows[token].(usedAt := Some(now))];
      r := Ok(Done);
    }
  }
}
