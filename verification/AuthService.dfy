/** The token half of the authentication service, updating its refresh-token table and its cache in place. */
module AuthService {
  import opened Wrappers
  import opened Tokens

  class AuthService {
    const cfg: Config
    var rows: seq<Row>
    var blacklist: map<nat, int>
    var nextJti: nat
    ghost var session: seq<nat>
    ghost var parent: seq<Option<nat>>
    ghost var sessions: nat

    ghost function Snapshot(): State
      reads this
    {
      State(rows, blacklist, nextJti, session, parent, sessions)
    }

    ghost predicate Valid()
      reads this
    {
      Chains(Snapshot())
    }

    constructor (cfg: Config)
      ensures Valid() && this.cfg == cfg && Snapshot() == INITIAL
    {
      this.cfg := cfg;
      rows, blacklist, nextJti := [], map[], 0;
      session, parent, sessions := [], [], 0;
    }

    method GenerateTokens(userId: nat, role: string, now: int, ghost after: Option<nat>) returns (pair: Pair)
      requires Valid() && MayFollow(Snapshot(), userId, role, after)
      modifies this
      ensures Valid() && Snapshot() == Generate(cfg, old(Snapshot()), userId, role, now, after)
      ensures pair == NewPair(cfg, old(nextJti), userId, role, now)
      ensures PairFor(cfg, old(rows), pair, userId, role, now)
      ensures StoredAfter(cfg, old(rows), rows, pair, userId, role, now)
    {
      GenerateKeepsChains(cfg, Snapshot(), userId, role, now, after);
      var jti := nextJti;
      nextJti := nextJti + 1;
      var access := Jwt(userId, role, jti, AccessToken, now / 1000 + cfg.accessJwt);
      var refresh := Jwt(userId, role, jti, RefreshToken, now / 1000 + cfg.refreshJwt);
      rows := rows + [Row(refresh, userId, role, now + cfg.refreshRow * 1000, None)];
      session := session + [if after.Some? then session[after.value] else sessions];
      parent := parent + [after];
      sessions := if after.Some? then sessions else sessions + 1;
      pair := Pair(access, refresh);
    }

    /** The tail of `login`, and of `signup` with the role `admin`. */
    method SignIn(userId: nat, role: string, now: int) returns (pair: Pair)
      requires Valid()
      modifies this
      ensures Valid() && Snapshot() == Next(cfg, old(Snapshot()), Step.Login(userId, role, now))
      ensures pair == NewPair(cfg, old(nextJti), userId, role, now)
      ensures PairFor(cfg, old(rows), pair, userId, role, now)
      ensures StoredAfter(cfg, old(rows), rows, pair, userId, role, now)
    {
      pair := GenerateTokens(userId, role, now, None);
    }

    /** `login`, given the administrator and the user whose e-mail and password match. Without a role one logs in as a user;
        with a role that is neither, not at all. */
    method Login(role: string, admin: Option<nat>, user: Option<nat>, now: int) returns (r: Result<Pair>)
      requires Valid()
      modifies this
      ensures Valid()
      ensures r.Ok? <==> (role == "admin" && admin.Some?) || (role in {"user", ""} && user.Some?)
      ensures r.Err? ==> r == Err(Unauthorized) && Snapshot() == old(Snapshot())
      ensures r.Ok? && role == "admin" ==> PairFor(cfg, old(rows), r.value, admin.value, "admin", now)
                                           && StoredAfter(cfg, old(rows), rows, r.value, admin.value, "admin", now)
      ensures r.Ok? && role != "admin" ==> PairFor(cfg, old(rows), r.value, user.value, "user", now)
                                           && StoredAfter(cfg, old(rows), rows, r.value, user.value, "user", now)
    {
      var asked := if role == "" then "user" else role;
      var account: Option<nat> := None;
      if asked == "admin" {
        account := admin;
      } else if asked == "user" {
        account := user;
      }
      if account.None? { return Err(Unauthorized); }
      var pair := SignIn(account.value, asked, now);
      r := Ok(pair);
    }

    /** `signup`: the new administrator's account, unless the e-mail is taken. */
    method Signup(taken: bool, id: nat, now: int) returns (r: Result<Pair>)
      requires Valid()
      modifies this
      ensures Valid()
      ensures taken ==> r == Err(Conflict) && Snapshot() == old(Snapshot())
      ensures !taken ==> r.Ok? && PairFor(cfg, old(rows), r.value, id, "admin", now)
                         && StoredAfter(cfg, old(rows), rows, r.value, id, "admin", now)
    {
      if taken { return Err(Conflict); }
      var pair := SignIn(id, "admin", now);
      r := Ok(pair);
    }

    method RefreshTokens(token: Jwt, admins: set<nat>, users: set<nat>, now: int) returns (r: Result<Pair>)
      requires Valid()
      modifies this
      ensures Valid()
      ensures var i := Find(old(rows), token);
              var known := i < |old(rows)| && token.sub in if old(rows)[i].userType == "admin" then admins else users;
              && (Snapshot(), r) == RefreshRow(cfg, old(Snapshot()), i, token, known, now)
              && Snapshot() == Next(cfg, old(Snapshot()), Refresh(token, known, now))
              && (r.Ok? ==>
                    && i < |old(rows)| && PairFor(cfg, old(rows), r.value, old(rows)[i].userId, old(rows)[i].userType, now)
                    && StoredAfter(cfg, old(rows)[i := rows[i]], rows, r.value, old(rows)[i].userId,
                                   old(rows)[i].userType, now)
                    && rows[i] == Row(token, old(rows)[i].userId, old(rows)[i].userType, old(rows)[i].expiresAt, Some(now)))
    {
      if now >= 1000 * token.exp { return Err(Unauthorized); }
      if token.kind != RefreshToken { return Err(Unauthorized); }
      var i := Find(rows, token);
      if i == |rows| || rows[i].revokedAt.Some? { return Err(Unauthorized); }
      if rows[i].expiresAt < now { return Err(Unauthorized); }
      ghost var before := Snapshot();
      ghost var known := token.sub in if rows[i].userType == "admin" then admins else users;
      NextKeepsChains(cfg, before, Refresh(token, false, now));
      RevokedMayBeFollowed(before, i, token, now);
      rows := rows[i := rows[i].(revokedAt := Some(now))];
      assert Snapshot() == Revoke(before, i, now);
      if token.sub !in (if rows[i].userType == "admin" then admins else users) { return Err(Unauthorized); }
      var pair := GenerateTokens(token.sub, rows[i].userType, now, Some(i));
      r := Ok(pair);
    }

    /** `logout` behind its guard; `cacheWorks` says whether the cache accepts the entry. */
    method Logout(bearer: Jwt, cacheWorks: bool, now: int)
      requires Valid()
      modifies this
      ensures Valid() && Snapshot() == Next(cfg, old(Snapshot()), Step.Logout(bearer, cacheWorks, now))
    {
      NextKeepsChains(cfg, Snapshot(), Step.Logout(bearer, cacheWorks, now));
      if now >= 1000 * bearer.exp || (bearer.jti in blacklist && now < blacklist[bearer.jti]) { return; }
      var left := 1000 * bearer.exp - now;
      var ttl := if left < 0 then 0 else left / 1000;
      if ttl > 0 {
        if !cacheWorks { return; }
        blacklist := blacklist[bearer.jti := now + ttl * 1000];
      }
      if bearer.sub != 0 {
        rows := RevokeAll(rows, bearer.sub, now);
      }
    }
  }

  lemma RevokedMayBeFollowed(s: State, i: nat, token: Jwt, now: int)
    requires Chains(s) && Accepted(s.rows, i, token, now)
    ensures Chains(Revoke(s, i, now)) && MayFollow(Revoke(s, i, now), token.sub, s.rows[i].userType, Some(i))
  {
    RevokeKeepsChains(s, Revoke(s, i, now).rows);
  }
}
