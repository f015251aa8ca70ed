/** Refresh-token rotation, logout and the access-token blacklist, each call handled as one step. */
module Tokens {
  import opened Wrappers

  datatype Kind = AccessToken | RefreshToken

  /** A token this service signed. Its identifier `jti` is fresh for each pair, so a token is determined by its content, and
      so is the hash under which a refresh token is stored. `exp` is in seconds. */
  datatype Jwt = Jwt(sub: nat, role: string, jti: nat, kind: Kind, exp: int)

  /** A `refreshToken` row; times are in milliseconds. */
  datatype Row = Row(token: Jwt, userId: nat, userType: string, expiresAt: int, revokedAt: Option<int>)

  /** Configured lifetimes, in seconds: what `sign` is given, and what `parseExpiry` makes of the refresh lifetime. */
  datatype Config = Config(accessJwt: nat, refreshJwt: nat, refreshRow: nat)

  /** The rows in creation order (they are never deleted), the blacklist (until when each `jti` is visible), and, as
      bookkeeping, the session and the predecessor of each row. */
  datatype State = State(
    rows: seq<Row>, blacklist: map<nat, int>, nextJti: nat,
    session: seq<nat>, parent: seq<Option<nat>>, sessions: nat)

  const INITIAL := State([], map[], 0, [], [], 0)

  datatype Step =
    | Login(userId: nat, role: string, now: int)                              // or signup, with role `admin`
    | Refresh(token: Jwt, userExists: bool, now: int)
    | Logout(bearer: Jwt, cacheWorks: bool, now: int)

  datatype Pair = Pair(access: Jwt, refresh: Jwt)

  // ── The calls ───────────────────────────────────────────────────────────

  function NewPair(cfg: Config, jti: nat, userId: nat, role: string, now: int): Pair {
    Pair(Jwt(userId, role, jti, AccessToken, now / 1000 + cfg.accessJwt),
         Jwt(userId, role, jti, RefreshToken, now / 1000 + cfg.refreshJwt))
  }

  function NewRow(cfg: Config, jti: nat, userId: nat, role: string, now: int): Row {
    Row(NewPair(cfg, jti, userId, role, now).refresh, userId, role, now + cfg.refreshRow * 1000, None)
  }

  /** `generateTokens`. */
  function Generate(cfg: Config, s: State, userId: nat, role: string, now: int, parent: Option<nat>): State
    requires parent.Some? ==> parent.value < |s.session|
  {
    var row := NewRow(cfg, s.nextJti, userId, role, now);
    s.(rows := s.rows + [row], nextJti := s.nextJti + 1,
       session := s.session + [if parent.Some? then s.session[parent.value] else s.sessions],
       parent := s.parent + [parent],
       sessions := if parent.Some? then s.sessions else s.sessions + 1)
  }

  /** A signature is valid until the instant `exp` names (section 4.1.4 of RFC 7519). */
  predicate Unexpired(token: Jwt, now: int) {
    now < 1000 * token.exp
  }

  predicate IsRow(rows: seq<Row>, i: nat, token: Jwt) {
    i < |rows| && rows[i].token == token
  }

  /** The lookup of `refreshTokens` finds an unrevoked, unexpired row. */
  predicate Accepted(rows: seq<Row>, i: nat, token: Jwt, now: int) {
    && token.kind == RefreshToken && Unexpired(token, now)
    && IsRow(rows, i, token) && rows[i].revokedAt.None? && now <= rows[i].expiresAt
  }

  function Revoke(s: State, i: nat, now: int): State
    requires i < |s.rows|
  {
    s.(rows := s.rows[i := s.rows[i].(revokedAt := Some(now))])
  }

  /** `refreshTokens` on the row its token names. */
  function RefreshRow(cfg: Config, s: State, i: nat, token: Jwt, userExists: bool, now: int): (State, Result<Pair>)
    requires |s.session| == |s.rows|
  {
    if !Accepted(s.rows, i, token, now) then (s, Err(Unauthorized))
    else if !userExists then (Revoke(s, i, now), Err(Unauthorized))
    else (Generate(cfg, Revoke(s, i, now), token.sub, s.rows[i].userType, now, Some(i)),
          Ok(NewPair(cfg, s.nextJti, token.sub, s.rows[i].userType, now)))
  }

  /** The position of the row with this token; past the end when there is none. */
  function Find(rows: seq<Row>, token: Jwt): (i: nat)
    ensures i <= |rows| && (i < |rows| ==> rows[i].token == token)
    ensures forall j | 0 <= j < i :: rows[j].token != token
  {
    if rows == [] || rows[0].token == token then 0 else 1 + Find(rows[1..], token)
  }

  /** The JWT strategy with its expiry check: who passes the guard in front of logout. */
  predicate Passes(s: State, token: Jwt, now: int) {
    Unexpired(token, now) && !(token.jti in s.blacklist && now < s.blacklist[token.jti])
  }

  /** The whole seconds the token has left. */
  function Ttl(token: Jwt, now: int): int {
    if 1000 * token.exp - now < 0 then 0 else (1000 * token.exp - now) / 1000
  }

  function RevokeAll(rows: seq<Row>, userId: nat, now: int): seq<Row> {
    seq(|rows|, i requires 0 <= i < |rows| =>
      if rows[i].userId == userId then rows[i].(revokedAt := Some(now)) else rows[i])
  }

  /** `logout` behind its guard. A cache failure is swallowed, and the rows are then left alone. */
  function LoggedOut(s: State, bearer: Jwt, cacheWorks: bool, now: int): State {
    if !Passes(s, bearer, now) then s
    else if Ttl(bearer, now) > 0 && !cacheWorks then s
    else
      var s' := if Ttl(bearer, now) > 0 then s.(blacklist := s.blacklist[bearer.jti := now + Ttl(bearer, now) * 1000])
          else s;
      if bearer.sub != 0 then s'.(rows := RevokeAll(s.rows, bearer.sub, now)) else s'
  }

  function Next(cfg: Config, s: State, step: Step): State
    requires |s.session| == |s.rows|
  {
    match step
    case Login(userId, role, now) => Generate(cfg, s, userId, role, now, None)
    case Refresh(token, userExists, now) => RefreshRow(cfg, s, Find(s.rows, token), token, userExists, now).0
    case Logout(bearer, cacheWorks, now) => LoggedOut(s, bearer, cacheWorks, now)
  }

  // ── Rotation chains ─────────────────────────────────────────────────────

  ghost predicate Shape(s: State) {
    |s.session| == |s.rows| && |s.parent| == |s.rows|
  }

  ghost predicate Minted(s: State) {
    && (forall i | 0 <= i < |s.rows| ::
          && s.rows[i].token.jti < s.nextJti && s.rows[i].token.kind == RefreshToken
          && s.rows[i].token.sub == s.rows[i].userId && s.rows[i].token.role == s.rows[i].userType)
    && (forall i, j | 0 <= i < j < |s.rows| :: s.rows[i].token.jti < s.rows[j].token.jti)
  }

  /** A successor continues its predecessor's session for the same account; the predecessor is revoked, and is the row of
      the session just before it. A row without predecessor starts its session. */
  ghost predicate Linked(s: State, i: nat)
    requires Shape(s) && i < |s.rows|
  {
    && s.session[i] < s.sessions
    && match s.parent[i]
       case None => forall k | 0 <= k < i :: s.session[k] != s.session[i]
       case Some(p) =>
         && p < i && s.session[p] == s.session[i]
         && s.rows[p].userId == s.rows[i].userId && s.rows[p].userType == s.rows[i].userType && s.rows[p].revokedAt.Some?
         && (forall k | p < k < i :: s.session[k] != s.session[i])
  }

  ghost predicate Links(s: State)
    requires Shape(s)
  {
    forall i | 0 <= i < |s.rows| :: Linked(s, i)
  }

  /** Only the last row of a session may be unrevoked. */
  ghost predicate OnlyLastLives(s: State)
    requires Shape(s)
  {
    forall i, j | 0 <= i < j < |s.rows| && s.session[i] == s.session[j] :: s.rows[i].revokedAt.Some?
  }

  ghost predicate Chains(s: State) {
    Shape(s) && Minted(s) && Links(s) && OnlyLastLives(s)
  }

  /** A new row may follow `parent` when that row is revoked, the last of its session, and of the same account. */
  ghost predicate MayFollow(s: State, userId: nat, role: string, parent: Option<nat>)
    requires Shape(s)
  {
    parent.Some? ==>
      && parent.value < |s.rows| && s.rows[parent.value].revokedAt.Some?
      && s.rows[parent.value].userId == userId && s.rows[parent.value].userType == role
      && (forall k | parent.value < k < |s.rows| :: s.session[k] != s.session[parent.value])
  }

  lemma GenerateAppends(cfg: Config, s: State, userId: nat, role: string, now: int, parent: Option<nat>)
    requires Shape(s) && MayFollow(s, userId, role, parent)
    ensures var s' := Generate(cfg, s, userId, role, now, parent);
            && Shape(s') && |s'.rows| == |s.rows| + 1
            && (forall i | 0 <= i < |s.rows| :: s'.rows[i] == s.rows[i])
            && (forall i | 0 <= i < |s.rows| :: s'.session[i] == s.session[i])
            && (forall i | 0 <= i < |s.rows| :: s'.parent[i] == s.parent[i])
            && s'.rows[|s.rows|].token == NewPair(cfg, s.nextJti, userId, role, now).refresh
            && s'.rows[|s.rows|].userId == userId && s'.rows[|s.rows|].userType == role
            && s'.session[|s.rows|] == (if parent.Some? then s.session[parent.value] else s.sessions)
            && s'.parent[|s.rows|] == parent
  {
  }

  lemma GenerateKeepsMinted(cfg: Config, s: State, userId: nat, role: string, now: int, parent: Option<nat>)
    requires Shape(s) && Minted(s) && MayFollow(s, userId, role, parent)
    ensures Minted(Generate(cfg, s, userId, role, now, parent))
  {
    GenerateAppends(cfg, s, userId, role, now, parent);
    hide Links, OnlyLastLives;
  }

  lemma GenerateKeepsLinks(cfg: Config, s: State, userId: nat, role: string, now: int, parent: Option<nat>)
    requires Shape(s) && Links(s) && MayFollow(s, userId, role, parent)
    ensures Links(Generate(cfg, s, userId, role, now, parent))
  {
    var s' := Generate(cfg, s, userId, role, now, parent);
    GenerateAppends(cfg, s, userId, role, now, parent);
    if parent.Some? { assert Linked(s, parent.value); }
    assert s'.sessions >= s.sessions && s'.session[|s.rows|] < s'.sessions;
    hide Generate, Minted, OnlyLastLives;
    forall i | 0 <= i < |s'.rows| ensures Linked(s', i) {
      if i < |s.rows| {
        assert Linked(s, i);
      } else if parent.None? {
        forall k | 0 <= k < i ensures s'.session[k] != s'.session[i] { assert Linked(s, k); }
      }
    }
  }

  lemma GenerateKeepsOnlyLastLives(cfg: Config, s: State, userId: nat, role: string, now: int, parent: Option<nat>)
    requires Shape(s) && Links(s) && OnlyLastLives(s) && MayFollow(s, userId, role, parent)
    ensures OnlyLastLives(Generate(cfg, s, userId, role, now, parent))
  {
    var s' := Generate(cfg, s, userId, role, now, parent);
    GenerateAppends(cfg, s, userId, role, now, parent);
    hide Generate, Minted;
    forall i, j | 0 <= i < j < |s'.rows| && s'.session[i] == s'.session[j] ensures s'.rows[i].revokedAt.Some? {
      if j == |s.rows| {
        assert Linked(s, i);
        if parent.Some? && i < parent.value { assert s.session[i] == s.session[parent.value]; }
      }
    }
  }

  lemma GenerateKeepsChains(cfg: Config, s: State, userId: nat, role: string, now: int, parent: Option<nat>)
    requires Chains(s) && MayFollow(s, userId, role, parent)
    ensures Chains(Generate(cfg, s, userId, role, now, parent))
  {
    GenerateKeepsMinted(cfg, s, userId, role, now, parent);
    GenerateKeepsLinks(cfg, s, userId, role, now, parent);
    GenerateKeepsOnlyLastLives(cfg, s, userId, role, now, parent);
    GenerateAppends(cfg, s, userId, role, now, parent);
    hide *;
  }

  /** The same rows, some of them newly revoked. */
  ghost predicate OnlyRevokes(before: seq<Row>, after: seq<Row>) {
    && |after| == |before|
    && forall i | 0 <= i < |before| ::
         && after[i].(revokedAt := before[i].revokedAt) == before[i]
         && (before[i].revokedAt.Some? ==> after[i].revokedAt.Some?)
  }

  lemma RevokeKeepsChains(s: State, rows: seq<Row>)
    requires Chains(s) && OnlyRevokes(s.rows, rows)
    ensures Chains(s.(rows := rows))
  {
    var s' := s.(rows := rows);
    forall i | 0 <= i < |rows| ensures Linked(s', i) {
      assert Linked(s, i);
    }
  }

  lemma BlacklistIsApart(s: State, blacklist: map<nat, int>)
    requires Chains(s)
    ensures Chains(s.(blacklist := blacklist))
  {
    var s' := s.(blacklist := blacklist);
    forall i | 0 <= i < |s.rows| ensures Linked(s', i) {
      assert Linked(s, i);
    }
  }

  lemma NextKeepsChains(cfg: Config, s: State, step: Step)
    requires Chains(s)
    ensures Chains(Next(cfg, s, step))
  {
    match step
    case Login(userId, role, now) => GenerateKeepsChains(cfg, s, userId, role, now, None);
    case Refresh(token, userExists, now) =>
      var i := Find(s.rows, token);
      if Accepted(s.rows, i, token, now) {
        RevokeKeepsChains(s, Revoke(s, i, now).rows);
        if userExists { GenerateKeepsChains(cfg, Revoke(s, i, now), token.sub, s.rows[i].userType, now, Some(i)); }
      }
    case Logout(bearer, cacheWorks, now) =>
      var rows := if bearer.sub != 0 then RevokeAll(s.rows, bearer.sub, now) else s.rows;
      RevokeKeepsChains(s, s.rows);
      RevokeKeepsChains(s, rows);
      BlacklistIsApart(s.(rows := rows), LoggedOut(s, bearer, cacheWorks, now).blacklist);
  }

  ghost function Run(cfg: Config, s: State, steps: seq<Step>): (s': State)
    requires Chains(s)
    ensures Chains(s')
  {
    if steps == [] then s
    else
      var before := Run(cfg, s, steps[..|steps| - 1]);
      NextKeepsChains(cfg, before, steps[|steps| - 1]);
      Next(cfg, before, steps[|steps| - 1])
  }

  /** A run that starts with a step goes on from there. */
  lemma {:induction false} RunFirst(cfg: Config, s: State, step: Step, later: seq<Step>)
    requires Chains(s)
    ensures Chains(Next(cfg, s, step))
    ensures Run(cfg, s, [step] + later) == Run(cfg, Next(cfg, s, step), later)
  {
    hide Next, Minted, Links, OnlyLastLives;
    NextKeepsChains(cfg, s, step);
    if later == [] {
      assert [step] + later == [step] && [step][..0] == [];
      assert Run(cfg, s, []) == s;
    } else {
      RunFirst(cfg, s, step, later[..|later| - 1]);
      assert ([step] + later)[..|later|] == [step] + later[..|later| - 1];
    }
  }

  lemma SuccessorIsUnique(s: State, i: nat, j: nat)
    requires Chains(s) && i < |s.rows| && j < |s.rows| && s.parent[i].Some? && s.parent[i] == s.parent[j]
    ensures i == j
  {
    assert Linked(s, i) && Linked(s, j);
  }

  lemma LiveRowIsUnique(s: State, i: nat, j: nat)
    requires Chains(s) && i < |s.rows| && j < |s.rows| && s.session[i] == s.session[j]
    requires s.rows[i].revokedAt.None? && s.rows[j].revokedAt.None?
    ensures i == j
  {
  }

  /** Row `i` holds this token and is the live end of its session. */
  ghost predicate LiveEnd(s: State, i: nat, token: Jwt)
    requires Shape(s)
  {
    IsRow(s.rows, i, token) && s.rows[i].revokedAt.None? && forall k | i < k < |s.rows| :: s.session[k] != s.session[i]
  }

  lemma AcceptsLiveEnd(cfg: Config, s: State, token: Jwt, now: int, i: nat)
    requires Chains(s) && LiveEnd(s, i, token)
    ensures RefreshRow(cfg, s, Find(s.rows, token), token, true, now).1.Ok?
            <==> now <= s.rows[i].expiresAt && Unexpired(token, now)
  {
    var f := Find(s.rows, token);
    assert s.rows[f].token.jti == s.rows[i].token.jti && f <= i;
    hide Links, OnlyLastLives, Find, LiveEnd;
  }

  // ── What a pair says ────────────────────────────────────────────────────

  /** The two tokens of a pair name one account and share an identifier that no row has. They differ in kind, and each is
      signed for its own lifetime from the second in which the pair was made. */
  ghost predicate PairFor(cfg: Config, rows: seq<Row>, pair: Pair, userId: nat, role: string, now: int) {
    && pair.access.sub == userId && pair.refresh.sub == userId
    && pair.access.role == role && pair.refresh.role == role
    && pair.access.jti == pair.refresh.jti
    && (forall i | 0 <= i < |rows| :: rows[i].token.jti != pair.access.jti)
    && pair.access.kind == AccessToken && pair.refresh.kind == RefreshToken
    && pair.access.exp == now / 1000 + cfg.accessJwt && pair.refresh.exp == now / 1000 + cfg.refreshJwt
  }

  /** The refresh token of the pair is stored last, for the same account, unrevoked, and for its own lifetime from now; the
      other rows are `rows`. */
  predicate StoredAfter(cfg: Config, rows: seq<Row>, after: seq<Row>, pair: Pair, userId: nat, role: string, now: int) {
    after == rows + [Row(pair.refresh, userId, role, now + 1000 * cfg.refreshRow, None)]
  }

  /** A login, or a signup, as `role`: both tokens name the account that signed in, under an identifier never used before,
      and the refresh token is stored for that account. The access token passes the strategy exactly until the configured
      lifetime is over, as long as its identifier is not blacklisted; as a refresh token it is never accepted. */
  lemma LoginMeaning(cfg: Config, s: State, userId: nat, role: string, now: int, at: int)
    requires Chains(s)
    ensures var s', pair := Next(cfg, s, Login(userId, role, now)), NewPair(cfg, s.nextJti, userId, role, now);
            && PairFor(cfg, s.rows, pair, userId, role, now)
            && StoredAfter(cfg, s.rows, s'.rows, pair, userId, role, now)
            && s'.blacklist == s.blacklist && s'.nextJti > pair.access.jti
            && (Passes(s', pair.access, at) <==>
                  && at < 1000 * (now / 1000 + cfg.accessJwt)
                  && (pair.access.jti in s.blacklist ==> s.blacklist[pair.access.jti] <= at))
            && RefreshRow(cfg, s', Find(s'.rows, pair.access), pair.access, true, at).1 == Err(Unauthorized)
  {
    hide Links, OnlyLastLives, Find;
  }

  /** The token is the unexpired refresh token of a row that is neither revoked nor expired. */
  ghost predicate Redeemable(rows: seq<Row>, token: Jwt, now: int) {
    && token.kind == RefreshToken && now < 1000 * token.exp
    && exists j :: 0 <= j < |rows| && rows[j].token == token && rows[j].revokedAt.None? && now <= rows[j].expiresAt
  }

  lemma RedeemableIsAccepted(s: State, token: Jwt, now: int)
    requires Chains(s)
    ensures Redeemable(s.rows, token, now) <==> Accepted(s.rows, Find(s.rows, token), token, now)
  {
    var i := Find(s.rows, token);
    if j :| 0 <= j < |s.rows| && s.rows[j].token == token && s.rows[j].revokedAt.None? && now <= s.rows[j].expiresAt {
      assert s.rows[i].token.jti == s.rows[j].token.jti && i <= j;
    }
    hide Links, OnlyLastLives, Find;
  }

  /** The row has just been revoked. */
  function RevokedNow(row: Row, now: int): Row {
    Row(row.token, row.userId, row.userType, row.expiresAt, Some(now))
  }

  /** A refresh. It succeeds exactly when the token is redeemable and the account is still there. Then both new tokens name
      the account of the redeemed row, by number and by role, under an identifier never used before; the redeemed row is
      revoked, and nothing else changes but for the new row. If only the account is gone, the row is revoked all the same;
      otherwise nothing happens. */
  lemma RefreshMeaning(cfg: Config, s: State, token: Jwt, userExists: bool, now: int)
    requires Chains(s)
    ensures var i := Find(s.rows, token);
            var (s', r) := RefreshRow(cfg, s, i, token, userExists, now);
            && s' == Next(cfg, s, Refresh(token, userExists, now)) && s'.blacklist == s.blacklist
            && (r.Ok? <==> Redeemable(s.rows, token, now) && userExists)
            && (r.Err? ==> r == Err(Unauthorized))
            && (!Redeemable(s.rows, token, now) ==> s' == s)
            && (Redeemable(s.rows, token, now) ==>
                  && i < |s.rows| && s.rows[i].token == token
                  && var row := s.rows[i];
                     && (!userExists ==> s'.rows == s.rows[i := RevokedNow(row, now)])
                     && (userExists ==>
                           && PairFor(cfg, s.rows, r.value, row.userId, row.userType, now)
                           && StoredAfter(cfg, s.rows[i := RevokedNow(row, now)], s'.rows, r.value, row.userId,
                                          row.userType, now)
                           && s'.nextJti > r.value.access.jti))
  {
    RedeemableIsAccepted(s, token, now);
    hide Links, OnlyLastLives, Find, Redeemable;
  }

  /** Over every run, rotation forms chains: a row has at most one successor, a session at most one live row, and a refresh
      accepts a token exactly when it is the live end of its session and neither row nor signature has expired. */
  lemma TokensFormChains(cfg: Config, steps: seq<Step>, token: Jwt, now: int)
    ensures var s := Run(cfg, INITIAL, steps);
            && (forall i, j | 0 <= i < |s.rows| && 0 <= j < |s.rows| && s.parent[i].Some?
                && s.parent[i] == s.parent[j] :: i == j)
            && (forall i, j | 0 <= i < |s.rows| && 0 <= j < |s.rows| && s.session[i] == s.session[j]
                              && s.rows[i].revokedAt.None? && s.rows[j].revokedAt.None? :: i == j)
            && (RefreshRow(cfg, s, Find(s.rows, token), token, true, now).1.Ok? <==>
                  exists i: nat :: LiveEnd(s, i, token) && now <= s.rows[i].expiresAt && Unexpired(token, now))
  {
    var s := Run(cfg, INITIAL, steps);
    hide Run, Chains, RefreshRow, Accepted, Links, Linked, OnlyLastLives, Minted;
    forall i, j | 0 <= i < |s.rows| && 0 <= j < |s.rows| && s.parent[i].Some? && s.parent[i] == s.parent[j] ensures i == j {
      SuccessorIsUnique(s, i, j);
    }
    forall i, j | 0 <= i < |s.rows| && 0 <= j < |s.rows| && s.session[i] == s.session[j]
                  && s.rows[i].revokedAt.None? && s.rows[j].revokedAt.None? ensures i == j {
      LiveRowIsUnique(s, i, j);
    }
    if RefreshRow(cfg, s, Find(s.rows, token), token, true, now).1.Ok? {
      AcceptedIsLiveEnd(cfg, s, token, now);
    }
    if i: nat :| LiveEnd(s, i, token) && now <= s.rows[i].expiresAt && Unexpired(token, now) {
      AcceptsLiveEnd(cfg, s, token, now, i);
    }
  }

  /** The refresh token just handed out is redeemable exactly until its signature or its row expires, whichever comes
      first; with equal lifetimes that is the signature, at the whole second in which the pair was made plus the
      lifetime. */
  lemma RedeemableUntil(cfg: Config, s: State, userId: nat, role: string, now: int, parent: Option<nat>, at: int)
    requires Chains(s) && MayFollow(s, userId, role, parent)
    ensures var s' := Generate(cfg, s, userId, role, now, parent);
            var token := NewPair(cfg, s.nextJti, userId, role, now).refresh;
            && Shape(s')
            && (RefreshRow(cfg, s', Find(s'.rows, token), token, true, at).1.Ok?
                <==> at < 1000 * (now / 1000 + cfg.refreshJwt) && at <= now + 1000 * cfg.refreshRow)
            && (cfg.refreshJwt == cfg.refreshRow ==>
                  (RefreshRow(cfg, s', Find(s'.rows, token), token, true, at).1.Ok? <==>
                      at < 1000 * (now / 1000 + cfg.refreshRow)))
  {
    var s' := Generate(cfg, s, userId, role, now, parent);
    var token := NewPair(cfg, s.nextJti, userId, role, now).refresh;
    GenerateKeepsChains(cfg, s, userId, role, now, parent);
    assert LiveEnd(s', |s.rows|, token);
    AcceptsLiveEnd(cfg, s', token, at, |s.rows|);
    assert s'.rows[|s.rows|] == NewRow(cfg, s.nextJti, userId, role, now);
    hide Chains, RefreshRow, Find, Generate;
  }

  lemma AcceptedIsLiveEnd(cfg: Config, s: State, token: Jwt, now: int)
    requires Chains(s) && RefreshRow(cfg, s, Find(s.rows, token), token, true, now).1.Ok?
    ensures var i := Find(s.rows, token); LiveEnd(s, i, token) && now <= s.rows[i].expiresAt && Unexpired(token, now)
  {
    hide Links, Minted, Generate, Find;
  }

  // ── Logout ──────────────────────────────────────────────────────────────

  /** Administrators and users are numbered apart, so a number alone names two accounts. */
  datatype Account = Account(id: nat, role: string)

  function AccountOfRow(row: Row): Account {
    Account(row.userId, row.userType)
  }

  /** The login or signup a row goes back to. */
  function Origin(s: State, i: nat): nat
    requires i < |s.parent|
  {
    if s.parent[i].Some? && s.parent[i].value < i then Origin(s, s.parent[i].value) else i
  }

  lemma {:induction false} OriginMeaning(s: State, i: nat)
    requires Chains(s) && i < |s.rows|
    ensures var o := Origin(s, i);
            && o <= i && s.parent[o].None? && s.session[o] == s.session[i]
            && AccountOfRow(s.rows[o]) == AccountOfRow(s.rows[i])
  {
    assert Linked(s, i);
    if s.parent[i].Some? { OriginMeaning(s, s.parent[i].value); }
  }

  function AccountOfToken(token: Jwt): Account {
    Account(token.sub, token.role)
  }

  /** Logout reached its table update: its guard let the token pass and the cache did not fail. */
  predicate LogoutTakesEffect(s: State, bearer: Jwt, cacheWorks: bool, now: int) {
    Passes(s, bearer, now) && (Ttl(bearer, now) > 0 ==> cacheWorks) && bearer.sub != 0
  }

  /** A logout whose bearer does not pass the strategy does nothing. Otherwise, as long as the token has a whole second left,
      its identifier is blacklisted for the whole seconds left, and if that fails nothing else happens; then the rows under
      the bearer's number, unless that is 0, are revoked now. No other row and no other entry changes, and none is added. */
  lemma LogoutMeaning(cfg: Config, s: State, bearer: Jwt, cacheWorks: bool, now: int)
    requires Chains(s)
    ensures var s' := Next(cfg, s, Logout(bearer, cacheWorks, now));
            var left := (1000 * bearer.exp - now) / 1000;
            && s'.nextJti == s.nextJti && |s'.rows| == |s.rows|
            && (forall jti | jti != bearer.jti :: jti in s'.blacklist <==> jti in s.blacklist)
            && (forall jti | jti != bearer.jti && jti in s'.blacklist :: s'.blacklist[jti] == s.blacklist[jti])
            && (!Passes(s, bearer, now) || (left > 0 && !cacheWorks) ==> s' == s)
            && (Passes(s, bearer, now) && (left > 0 ==> cacheWorks) ==>
                  && (left > 0 ==> bearer.jti in s'.blacklist && s'.blacklist[bearer.jti] == now + 1000 * left)
                  && (left == 0 ==> s'.blacklist == s.blacklist)
                  && forall i | 0 <= i < |s.rows| ::
                       s'.rows[i] == if bearer.sub != 0 && s.rows[i].userId == bearer.sub then
                                       Row(s.rows[i].token, s.rows[i].userId, s.rows[i].userType, s.rows[i].expiresAt,
                                           Some(now))
                                     else s.rows[i])
  {
    hide Links, OnlyLastLives, Minted;
  }

  /** One logout: rows under other account numbers are untouched, and all rows under the bearer's number end up revoked
      exactly when the update was reached or there was nothing left to revoke. */
  lemma LogoutRevokesIff(cfg: Config, s: State, bearer: Jwt, cacheWorks: bool, now: int)
    requires Chains(s)
    ensures var s' := Next(cfg, s, Logout(bearer, cacheWorks, now));
            && |s'.rows| == |s.rows| && s'.session == s.session && s'.parent == s.parent
            && (forall i | 0 <= i < |s.rows| && s.rows[i].userId != bearer.sub :: s'.rows[i] == s.rows[i])
            && ((forall i | 0 <= i < |s.rows| && s.rows[i].userId == bearer.sub :: s'.rows[i].revokedAt.Some?) <==>
                  || LogoutTakesEffect(s, bearer, cacheWorks, now)
                  || (forall i | 0 <= i < |s.rows| && s.rows[i].userId == bearer.sub :: s.rows[i].revokedAt.Some?))
  {
  }

  /** Exactly which rows a logout changes: not those of the bearer's account but those under its number. A live row of
      another account is revoked exactly when the logout takes effect and the row carries the bearer's number. */
  lemma LogoutTouchesIff(cfg: Config, s: State, bearer: Jwt, cacheWorks: bool, now: int, i: nat)
    requires Chains(s) && i < |s.rows|
    ensures var s' := Next(cfg, s, Logout(bearer, cacheWorks, now));
            var touched := LogoutTakesEffect(s, bearer, cacheWorks, now) && s.rows[i].userId == bearer.sub;
            && i < |s'.rows|
            && (s'.rows[i] != s.rows[i] <==> touched && s.rows[i].revokedAt != Some(now))
            && (AccountOfRow(s.rows[i]) != AccountOfToken(bearer) && s.rows[i].revokedAt.None? ==>
                  (s'.rows[i].revokedAt.Some? <==> touched))
  {
  }

  /** The logout `bearer` performs after `steps` revokes a live row of another account. */
  ghost predicate RevokesStranger(cfg: Config, steps: seq<Step>, bearer: Jwt, i: nat) {
    var s, s' := Run(cfg, INITIAL, steps), Run(cfg, INITIAL, steps + [Logout(bearer, true, 0)]);
    && i < |s.rows| && i < |s'.rows| && AccountOfRow(s.rows[i]) != AccountOfToken(bearer)
    && s.rows[i].revokedAt.None? && s'.rows[i].revokedAt.Some?
  }

  /** Administrator 7 and user 7 log in, and the user logs out: the administrator's session ends with the user's. */
  lemma LogoutCrossesAccounts(cfg: Config)
    requires cfg.accessJwt > 0
    ensures exists steps, bearer, i :: RevokesStranger(cfg, steps, bearer, i)
  {
    var first, second := [Login(7, "admin", 0)], [Login(7, "user", 0)];
    assert first[..0] == [] && Run(cfg, INITIAL, []) == INITIAL;
    assert (first + second)[..1] == first;
    var s1, s2 := Run(cfg, INITIAL, first), Run(cfg, INITIAL, first + second);
    assert s1.rows == [NewRow(cfg, 0, 7, "admin", 0)];
    assert s2.rows == s1.rows + [NewRow(cfg, 1, 7, "user", 0)] && s2.blacklist == map[];
    var bearer := NewPair(cfg, 1, 7, "user", 0).access;
    assert (first + second + [Logout(bearer, true, 0)])[..2] == first + second;
    LogoutTouchesIff(cfg, s2, bearer, true, 0, 0);
    assert RevokesStranger(cfg, first + second, bearer, 0);
  }

  /** Rows of `u` that are still live were started after the first `n` rows. */
  ghost predicate LiveSince(s: State, u: nat, n: nat, sessions: nat)
    requires Shape(s)
  {
    && n <= |s.rows| && sessions <= s.sessions
    && (forall i | 0 <= i < n :: s.session[i] < sessions)
    && (forall i | 0 <= i < |s.rows| && s.rows[i].userId == u && s.rows[i].revokedAt.None? :: sessions <= s.session[i])
  }

  /** A step keeps every row in place, never clears a revocation, and adds at most one row: to a fresh session at a login,
      to the session of its live predecessor at a refresh. */
  lemma NextIsMonotone(cfg: Config, s: State, step: Step)
    requires Chains(s)
    ensures var s' := Next(cfg, s, step);
            && Shape(s') && |s.rows| <= |s'.rows| <= |s.rows| + 1 && s.sessions <= s'.sessions
            && OnlyRevokes(s.rows, s'.rows[..|s.rows|]) && s'.session[..|s.rows|] == s.session
                && s'.parent[..|s.rows|] == s.parent
            && (|s'.rows| > |s.rows| && s'.parent[|s.rows|].None? ==> s'.session[|s.rows|] == s.sessions)
            && (|s'.rows| > |s.rows| && s'.parent[|s.rows|].Some? ==>
                  && s'.parent[|s.rows|].value < |s.rows| && s.rows[s'.parent[|s.rows|].value].revokedAt.None?)
  {
    hide Minted, Links, OnlyLastLives;
  }

  lemma NextKeepsLiveSince(cfg: Config, s: State, step: Step, u: nat, n: nat, sessions: nat)
    requires Chains(s) && LiveSince(s, u, n, sessions)
    ensures Chains(Next(cfg, s, step)) && LiveSince(Next(cfg, s, step), u, n, sessions)
  {
    hide Next, Minted, Links, OnlyLastLives, Linked;
    NextKeepsChains(cfg, s, step);
    NextIsMonotone(cfg, s, step);
    var s' := Next(cfg, s, step);
    assert s'.session[..|s.rows|] == s.session;
    forall i | 0 <= i < |s.rows| ensures s'.session[i] == s.session[i] && s'.rows[i].userId == s.rows[i].userId
                                         && (s'.rows[i].revokedAt.None? ==> s.rows[i].revokedAt.None?) {
      assert s'.rows[..|s.rows|][i] == s'.rows[i] && s'.session[..|s.rows|][i] == s'.session[i];
    }
    if |s'.rows| > |s.rows| { NewRowLinked(s', |s.rows|); }
  }

  lemma NewRowLinked(s: State, i: nat)
    requires Chains(s) && i < |s.rows|
    ensures s.parent[i].Some? ==>
              var p := s.parent[i].value;
              p < i && s.session[p] == s.session[i] && s.rows[p].userId == s.rows[i].userId
  {
    assert Linked(s, i);
  }

  lemma {:induction false} RunKeepsLiveSince(cfg: Config, s: State, steps: seq<Step>, u: nat, n: nat, sessions: nat)
    requires Chains(s) && LiveSince(s, u, n, sessions)
    ensures LiveSince(Run(cfg, s, steps), u, n, sessions)
  {
    if steps != [] {
      RunKeepsLiveSince(cfg, s, steps[..|steps| - 1], u, n, sessions);
      NextKeepsLiveSince(cfg, Run(cfg, s, steps[..|steps| - 1]), steps[|steps| - 1], u, n, sessions);
    }
  }

  /** After an effective logout, along every later run, each refresh token accepted for the bearer's account number goes back
      to a login or signup made after the logout. */
  lemma LogoutEndsAllSessions(cfg: Config, s: State, bearer: Jwt, cacheWorks: bool, now: int, later: seq<Step>, i: nat,
        token: Jwt, at: int)
    requires Chains(s) && LogoutTakesEffect(s, bearer, cacheWorks, now)
    requires var s' := Run(cfg, s, [Logout(bearer, cacheWorks, now)] + later);
             Accepted(s'.rows, i, token, at) && token.sub == bearer.sub
    ensures var s' := Run(cfg, s, [Logout(bearer, cacheWorks, now)] + later);
            |s.rows| <= Origin(s', i) < |s'.rows| && s'.parent[Origin(s', i)].None?
  {
    var s0 := Next(cfg, s, Logout(bearer, cacheWorks, now));
    RunFirst(cfg, s, Logout(bearer, cacheWorks, now), later);
    forall i | 0 <= i < |s.rows| ensures s.session[i] < s.sessions { assert Linked(s, i); }
    RunKeepsLiveSince(cfg, s0, later, bearer.sub, |s.rows|, s.sessions);
    var s' := Run(cfg, s0, later);
    OriginMeaning(s', i);
    assert s'.rows[i].userId == bearer.sub;
  }

  /** Somebody signed in as this account. */
  ghost predicate SignedIn(steps: seq<Step>, userId: nat, role: string) {
    exists n :: 0 <= n < |steps| && steps[n].Login? && steps[n].userId == userId && steps[n].role == role
  }

  lemma SignedInBefore(most: seq<Step>, last: Step, userId: nat, role: string)
    requires SignedIn(most, userId, role) || (last.Login? && last.userId == userId && last.role == role)
    ensures SignedIn(most + [last], userId, role)
  {
    var steps := most + [last];
    assert steps[|most|] == last;
    if SignedIn(most, userId, role) {
      var n :| 0 <= n < |most| && most[n].Login? && most[n].userId == userId && most[n].role == role;
      assert steps[n] == most[n];
    }
  }

  /** Along every run, every stored token names, by number and by role, an account that signed in: rotation never passes
      from one account to another. */
  lemma {:induction false} TokensNameWhoSignedIn(cfg: Config, steps: seq<Step>, i: nat)
    requires i < |Run(cfg, INITIAL, steps).rows|
    ensures var row := Run(cfg, INITIAL, steps).rows[i];
            && row.token.sub == row.userId && row.token.role == row.userType
            && SignedIn(steps, row.userId, row.userType)
  {
    if steps != [] {
      var most, last := steps[..|steps| - 1], steps[|steps| - 1];
      var s, s' := Run(cfg, INITIAL, most), Run(cfg, INITIAL, steps);
      assert steps == most + [last];
      hide Links, OnlyLastLives, SignedIn;
      if i < |s.rows| {
        TokensNameWhoSignedIn(cfg, most, i);
        NextIsMonotone(cfg, s, last);
        assert s'.rows[..|s.rows|][i] == s'.rows[i];
      } else {
        NewRowNames(cfg, s, last);
        if last.Refresh? { TokensNameWhoSignedIn(cfg, most, Find(s.rows, last.token)); }
      }
      SignedInBefore(most, last, s'.rows[i].userId, s'.rows[i].userType);
    }
  }

  lemma NewRowNames(cfg: Config, s: State, step: Step)
    requires Chains(s) && |Next(cfg, s, step).rows| > |s.rows|
    ensures var row := Next(cfg, s, step).rows[|s.rows|];
            && |Next(cfg, s, step).rows| == |s.rows| + 1 && (step.Login? || step.Refresh?)
            && (step.Login? ==> row.userId == step.userId && row.userType == step.role)
            && (step.Refresh? ==>
                  var i := Find(s.rows, step.token);
                  i < |s.rows| && row.userId == s.rows[i].userId && row.userType == s.rows[i].userType)
  {
    hide Links, OnlyLastLives;
  }

  // ── The blacklist ───────────────────────────────────────────────────────

  /** The identifier is on the blacklist at least until `until`. */
  predicate BlockedUntil(s: State, jti: nat, until: int) {
    jti in s.blacklist && until <= s.blacklist[jti]
  }

  /** No step shortens an entry: another logout with the identifier gets past the guard only once the entry is over. */
  lemma NextKeepsBlocked(cfg: Config, s: State, step: Step, jti: nat, until: int)
    requires Chains(s) && BlockedUntil(s, jti, until)
    ensures BlockedUntil(Next(cfg, s, step), jti, until)
  {
  }

  lemma {:induction false} RunKeepsBlocked(cfg: Config, s: State, steps: seq<Step>, jti: nat, until: int)
    requires Chains(s) && BlockedUntil(s, jti, until)
    ensures BlockedUntil(Run(cfg, s, steps), jti, until)
  {
    if steps != [] {
      RunKeepsBlocked(cfg, s, steps[..|steps| - 1], jti, until);
      NextKeepsBlocked(cfg, Run(cfg, s, steps[..|steps| - 1]), steps[|steps| - 1], jti, until);
    }
  }

  /** The length of the final window in which a logged-out token passes again. */
  function Leftover(token: Jwt, now: int): int {
    (1000 * token.exp - now) % 1000
  }

  /** Right after a logout that got through, the token passes at a later instant exactly in the final window before its
      expiry, which is shorter than a second; and along no later run does it pass outside that window. */
  lemma BlacklistWindow(cfg: Config, s: State, bearer: Jwt, now: int, later: seq<Step>, at: int)
    requires Chains(s) && Passes(s, bearer, now) && now <= at
    ensures 0 <= Leftover(bearer, now) < 1000
    ensures Passes(Next(cfg, s, Logout(bearer, true, now)), bearer, at)
            <==> 1000 * bearer.exp - Leftover(bearer, now) <= at < 1000 * bearer.exp
    ensures Passes(Run(cfg, s, [Logout(bearer, true, now)] + later), bearer, at)
            ==> 1000 * bearer.exp - Leftover(bearer, now) <= at < 1000 * bearer.exp
  {
    var s0 := Next(cfg, s, Logout(bearer, true, now));
    RunFirst(cfg, s, Logout(bearer, true, now), later);
    var left := 1000 * bearer.exp - now;
    assert left == 1000 * (left / 1000) + left % 1000;
    if Ttl(bearer, now) > 0 {
      RunKeepsBlocked(cfg, s0, later, bearer.jti, now + Ttl(bearer, now) * 1000);
    }
  }
}
