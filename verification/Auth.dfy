// The use cases of internal/service/auth/auth.go over the user tables and the refresh-token store,
// each call tied to the steps of the machines in Tenancy.dfy and Sessions.dfy.
module Auth {
  import opened Prelude
  import Tenancy
  import opened TenantRepo
  import opened Sessions

  class RefreshTokenStore {
    var live: Store

    constructor ()
      ensures live == map[]
    {
      live := map[];
    }

    method Save(jti: string, ttl: int, now: int, f: Fault) returns (failed: bool)
      modifies this
      ensures live == if f.Applied() then old(live)[jti := now + ttl] else old(live)
      ensures failed <==> !f.Reported()
    {
      if f.Applied() { live := live[jti := now + ttl]; }
      failed := !f.Reported();
    }

    method Exists(jti: string, now: int, f: Fault) returns (ok: bool, failed: bool)
      ensures failed <==> !f.Reported()
      ensures ok <==> f.Reported() && IsLive(live, jti, now)
    {
      failed := !f.Reported();
      ok := !failed && jti in live && now < live[jti];
    }

    method Revoke(jti: string, f: Fault) returns (failed: bool)
      modifies this
      ensures live == if f.Applied() then old(live) - {jti} else old(live)
      ensures failed <==> !f.Reported()
    {
      if f.Applied() { live := live - {jti}; }
      failed := !f.Reported();
    }
  }

  datatype Failure = AlreadyExists | InvalidToken | Unavailable | TenantConflict

  class AuthService {
    const db: Database
    const refresh: RefreshTokenStore
    const tokens: Manager

    constructor (db: Database, refresh: RefreshTokenStore, tokens: Manager)
      ensures this.db == db && this.refresh == refresh && this.tokens == tokens
    {
      this.db, this.refresh, this.tokens := db, refresh, tokens;
    }

    ghost function Tables(pending: set<int>, registered: set<int>): Tenancy.State
      reads db
    {
      Tenancy.State(db.View(), pending, registered)
    }

    /** A machine state in which a new call pid starts at this time on this store. */
    predicate Matches(s: State, now: int, store: Store, pid: nat) {
      s.m == tokens && s.now == now && s.store == store && pid !in s.procs
    }

    /** Create the user, then the private tenant with its primary membership, in two transactions.
        The call is one RegisterUser and, if that succeeded, one RegisterTenant step; it reports
        success exactly if both did, and then the private tenant is the user's default one. */
    method Register(username: string, id: int, now: int, io: nat -> Fault)
      returns (primaryTenant: string, err: Option<Failure>)
      requires id !in db.users && Tenancy.AtMostOnePrimary(db.members) && Tenancy.DistinctPairs(db.members)
      modifies db
      ensures var mid := Tenancy.Apply(old(Tables({}, {})), Tenancy.RegisterUser(id, username, io(0)));
        if id !in mid.pending then Tables({}, {}) == mid && err.Some?
        else exists f :: var end := Tenancy.Apply(mid, Tenancy.RegisterTenant(id, now, f));
               end.db == db.View() && (err.None? <==> id in end.registered)
      ensures err.None? ==>
        Tenancy.PrimaryTag(db.members, id) == Some(primaryTenant) && primaryTenant == Tenancy.PRIVATE + username
      ensures (forall k :: io(k).NoFault?) ==>
        var tag := "PRIVATE_" + username;
        var taken := tag in old(db.tenants) || Tenancy.IsMember(old(db.members), id, tag);
        err == if |username| > 64 then Some(Unavailable)
               else if username in old(db.users).Values then Some(AlreadyExists)
               else if |username| > 56 then Some(Unavailable)
               else if taken then Some(TenantConflict) else None
    {
      primaryTenant := "";
      ghost var mid := Tenancy.Apply(Tables({}, {}), Tenancy.RegisterUser(id, username, io(0)));
      var e := db.CreateUser(id, username, io(0));
      if e.Some? { return "", Some(if e.value.Conflict? then AlreadyExists else Unavailable); }
      assert mid.pending == {id} && mid.db == db.View();

      var tag := Tenancy.PRIVATE + username;
      ghost var tables := db.View();
      e := db.CreateWithMembership(tag, Tenancy.PrivateTenant(username, id, now), true, (k: nat) => io(k + 1));
      ghost var f :| (db.View(), e) ==
        Tenancy.CreateTenant(tables, tag, Tenancy.PrivateTenant(username, id, now), true, f);
      ghost var end := Tenancy.Apply(mid, Tenancy.RegisterTenant(id, now, f));
      assert end.db == db.View() && (e.None? <==> id in end.registered);
      if e.Some? { return "", Some(if e.value.Conflict? then TenantConflict else Unavailable); }
      Tenancy.CreateTenantKeepsPrimaries(tables, tag, Tenancy.PrivateTenant(username, id, now), true, f);
      Tenancy.OnePrimaryIsThePrimaryTag(db.members, id, tag);
      primaryTenant, err := tag, None;
    }

    /** Sign an access token, sign a refresh token, record its jti; each at its own clock reading. */
    method IssueTokens(user: int, jti: string, t1: int, t2: int, t3: int, f: Fault)
      returns (pair: Option<(Token, Token)>)
      requires t1 <= t2 <= t3
      modifies refresh
      ensures pair.Some? <==> f.Reported()
      ensures pair.Some? ==> pair.value.0.Signed? && pair.value.1.Signed?
      ensures pair.Some? ==>
        && pair.value.0.claims == Claims(user, "access", "", Truncate(t1), Truncate(t1 + tokens.accessExpire))
        && pair.value.1.claims == Claims(user, "refresh", jti, Truncate(t2), Truncate(t2 + tokens.refreshExpire))
        && jti in refresh.live && refresh.live[jti] == t3 + tokens.refreshExpire
        && refresh.live[jti] >= pair.value.1.claims.expires
      ensures forall s: State, pid: nat :: Matches(s, t1, old(refresh.live), pid) && jti !in s.used && jti != "" ==>
        var u := Sessions.Apply(s, Login(pid, user, jti, t2 - t1, t3 - t2, f));
        u.store == refresh.live && (pair.Some? ==> u.handed == s.handed + {pair.value.0.claims, pair.value.1.claims})
    {
      var access := Sign(user, ACCESS, "", tokens.accessExpire, t1);
      var refreshToken := Sign(user, REFRESH, jti, tokens.refreshExpire, t2);
      var failed := refresh.Save(jti, tokens.refreshExpire, t3, f);
      return if failed then None else Some((access, refreshToken));
    }

    /** Parse, look up the jti, sign: succeeds exactly for a live refresh token, with the outcome that
        RefreshCallOutcome gives for the machine. */
    method Refresh(token: Token, parsedAt: int, checkedAt: int, signedAt: int, f: Fault)
      returns (access: Option<Token>, err: Option<Failure>)
      requires parsedAt <= checkedAt <= signedAt
      ensures err.None? <==> access.Some?
      ensures access.Some? <==>
        Parse(token, REFRESH, parsedAt).Some? && f.Reported() && IsLive(refresh.live, token.claims.jti, checkedAt)
      ensures access.Some? ==> access == Some(Sign(token.claims.user, ACCESS, "", tokens.accessExpire, signedAt))
      ensures err == Some(Unavailable) <==> Parse(token, REFRESH, parsedAt).Some? && !f.Reported()
    {
      var claims := Parse(token, REFRESH, parsedAt);
      if claims.None? { return None, Some(InvalidToken); }
      var ok, failed := refresh.Exists(claims.value.jti, checkedAt, f);
      if failed { return None, Some(Unavailable); }
      if !ok { return None, Some(InvalidToken); }
      return Some(Sign(claims.value.user, ACCESS, "", tokens.accessExpire, signedAt)), None;
    }

    /** Revoke the jti of a valid refresh token. An invalid one is reported as logged out and
        changes nothing; afterwards, if nil is returned, Refresh cannot succeed with this token. */
    method Logout(token: Token, now: int, f: Fault) returns (failed: bool)
      modifies refresh
      ensures failed ==> Parse(token, REFRESH, now).Some? && !f.Reported()
      ensures Parse(token, REFRESH, now).None? ==> !failed && refresh.live == old(refresh.live)
      ensures Parse(token, REFRESH, now).Some? ==>
        failed == !f.Reported()
          && refresh.live == if f.Applied() then old(refresh.live) - {token.claims.jti} else old(refresh.live)
      ensures forall s: State, pid: nat :: Matches(s, now, old(refresh.live), pid) && Presentable(s, token) ==>
        var u := LogoutCall(s, pid, token, f); u.store == refresh.live && (failed <==> u.procs[pid].LogoutFailed?)
      ensures !failed ==> forall later :: later >= now ==>
        Parse(token, REFRESH, later).None? || !IsLive(refresh.live, token.claims.jti, later)
    {
      var claims := Parse(token, REFRESH, now);
      if claims.None? { return false; }
      failed := refresh.Revoke(claims.value.jti, f);
    }
  }
}
