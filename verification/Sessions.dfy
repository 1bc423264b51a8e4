// Tokens and sessions: internal/pkg/token/token_manager.go, the revocation store of
// internal/infra/redis/refresh_token_store.go and the calls Login, Refresh and Logout of
// internal/service/auth/auth.go, interleaved under a clock that only moves forward.
module Sessions {
  import opened Prelude

  // ---- tokens ----

  const ACCESS := "access"
  const REFRESH := "refresh"
  const SECOND: int := 1_000_000_000  // clock readings are in nanoseconds

  datatype Claims = Claims(user: int, typ: string, jti: string, issued: int, expires: int)

  /** A string either carries the server's signature over some claims, or it does not. */
  datatype Token = Signed(claims: Claims) | Unsigned(text: string)

  /** The two lifetimes of the token manager. */
  datatype Manager = Manager(accessExpire: int, refreshExpire: int)

  /** Numeric dates are kept in whole seconds. */
  function Truncate(t: int): (r: int)
    ensures r <= t < r + SECOND
  {
    t - t % SECOND
  }

  function Sign(user: int, typ: string, jti: string, ttl: int, now: int): Token {
    Signed(Claims(user, typ, jti, Truncate(now), Truncate(now + ttl)))
  }

  function Parse(token: Token, typ: string, now: int): Option<Claims> {
    if token.Signed? && now < token.claims.expires && token.claims.typ == typ then Some(token.claims) else None
  }

  /** A token passes exactly the check of its own kind, and only before its expiry. */
  lemma SignedTokensParse(user: int, typ: string, jti: string, ttl: int, now: int, want: string, later: int)
    ensures var r := Parse(Sign(user, typ, jti, ttl, now), want, later);
      && (r.Some? <==> want == typ && later < Truncate(now + ttl))
      && (r.Some? ==> r.value.user == user && r.value.jti == jti && later < now + ttl)
  {}

  // ---- interleaved runs ----

  /** Live refresh tokens by jti, each until a deadline. */
  type Store = map<string, int>

  predicate IsLive(store: Store, jti: string, now: int) { jti in store && now < store[jti] }

  datatype Proc =
    | Checking(token: Token, claims: Claims)      // Refresh: parsed, about to look up the jti
    | Signing(token: Token, claims: Claims)       // Refresh: jti found, about to sign
    | Refreshed(token: Token) | RefreshFailed(token: Token)
    | Revoking(token: Token, claims: Claims)      // Logout: parsed, about to revoke
    | LoggedOut(token: Token) | LogoutFailed(token: Token)

  /** An access token handed out for a session, with the time and the call that did it. */
  datatype Grant = Grant(jti: string, claims: Claims, at: int, caller: nat)

  /** handed: the claims of all tokens given to clients. used: every jti ever generated. */
  datatype State = State(m: Manager, now: int, store: Store, procs: map<nat, Proc>, handed: set<Claims>,
      used: set<string>, grants: set<Grant>)

  datatype Step =
    | Wait(d: nat)
    | Login(pid: nat, user: int, jti: string, d1: nat, d2: nat, f: Fault)
    | BeginRefresh(pid: nat, token: Token)
    | CheckRefresh(pid: nat, f: Fault)
    | SignRefresh(pid: nat)
    | BeginLogout(pid: nat, token: Token)
    | Revoke(pid: nat, f: Fault)

  function Initial(m: Manager, now: int): State { State(m, now, map[], map[], {}, {}, {}) }

  /** Nobody can present a signed token that was never handed out. */
  predicate Presentable(s: State, token: Token) { token.Signed? ==> token.claims in s.handed }

  function Apply(s: State, step: Step): State {
    match step
    case Wait(d) => s.(now := s.now + d)
    case Login(pid, user, jti, d1, d2, f) =>
      if jti in s.used || jti == "" || pid in s.procs then s else ApplyLogin(s, pid, user, jti, d1, d2, f)
    case BeginRefresh(pid, token) =>
      if pid in s.procs || !Presentable(s, token) then s
      else
        var c := Parse(token, REFRESH, s.now);
        s.(procs := s.procs[pid := if c.None? then RefreshFailed(token) else Checking(token, c.value)])
    case CheckRefresh(pid, f) =>
      if pid in s.procs && s.procs[pid].Checking? then
        var p := s.procs[pid];
        var found := f.Reported() && IsLive(s.store, p.claims.jti, s.now);
        s.(procs := s.procs[pid := if found then Signing(p.token, p.claims) else RefreshFailed(p.token)])
      else s
    case SignRefresh(pid) =>
      if pid in s.procs && s.procs[pid].Signing? then
        var p := s.procs[pid];
        var access := Sign(p.claims.user, ACCESS, "", s.m.accessExpire, s.now).claims;
        s.(procs := s.procs[pid := Refreshed(p.token)], handed := s.handed + {access},
           grants := s.grants + {Grant(p.claims.jti, access, s.now, pid)})
      else s
    case BeginLogout(pid, token) =>
      if pid in s.procs || !Presentable(s, token) then s
      else
        var c := Parse(token, REFRESH, s.now);
        s.(procs := s.procs[pid := if c.None? then LoggedOut(token) else Revoking(token, c.value)])
    case Revoke(pid, f) =>
      if pid in s.procs && s.procs[pid].Revoking? then
        var p := s.procs[pid];
        s.(store := if f.Applied() then s.store - {p.claims.jti} else s.store,
           procs := s.procs[pid := if f.Reported() then LoggedOut(p.token) else LogoutFailed(p.token)])
      else s
  }

  /** issueTokens: the access token is signed, d1 later the refresh token, and d2 later still the jti
      is saved; the client gets them only if the save is reported as successful. The call is recorded
      under its pid. */
  function ApplyLogin(s: State, pid: nat, user: int, jti: string, d1: nat, d2: nat, f: Fault): State {
    var access := Sign(user, ACCESS, "", s.m.accessExpire, s.now).claims;
    var refresh := Sign(user, REFRESH, jti, s.m.refreshExpire, s.now + d1).claims;
    var later := s.now + d1 + d2;
    var s' := s.(now := later, used := s.used + {jti},
                 store := if f.Applied() then s.store[jti := later + s.m.refreshExpire] else s.store);
    if f.Reported() then
      s'.(handed := s.handed + {access, refresh}, grants := s.grants + {Grant(jti, access, s.now, pid)})
    else s'
  }

  /** Refresh and Logout as calls nothing interferes with; d1 and d2 pass between their parts. */
  function RefreshCall(s: State, pid: nat, token: Token, d1: nat, d2: nat, f: Fault): State {
    var checked := Apply(Apply(Apply(s, BeginRefresh(pid, token)), Wait(d1)), CheckRefresh(pid, f));
    Apply(Apply(checked, Wait(d2)), SignRefresh(pid))
  }

  /** An undisturbed Refresh succeeds exactly when the token parses at its start and its jti is live
      at the check. */
  lemma RefreshCallOutcome(s: State, pid: nat, token: Token, d1: nat, d2: nat, f: Fault)
    requires pid !in s.procs && Presentable(s, token)
    ensures pid in RefreshCall(s, pid, token, d1, d2, f).procs
    ensures var u, at := RefreshCall(s, pid, token, d1, d2, f), s.now + d1 + d2;
      if Parse(token, REFRESH, s.now).Some? && f.Reported() && IsLive(s.store, token.claims.jti, s.now + d1)
      then u.procs[pid].Refreshed?
        && u.grants == s.grants + {Grant(token.claims.jti,
           Sign(token.claims.user, ACCESS, "", s.m.accessExpire, at).claims, at, pid)}
      else u.procs[pid].RefreshFailed? && u.grants == s.grants
  {
    var a := Apply(s, BeginRefresh(pid, token));
    var b := Apply(a, Wait(d1));
    var c := Apply(b, CheckRefresh(pid, f));
    var d := Apply(c, Wait(d2));
    assert d.procs == c.procs && b.procs == a.procs;
  }

  function LogoutCall(s: State, pid: nat, token: Token, f: Fault): State {
    Apply(Apply(s, BeginLogout(pid, token)), Revoke(pid, f))
  }

  function AfterFrom(s: State, steps: seq<Step>): State {
    if steps == [] then s else Apply(AfterFrom(s, steps[..|steps| - 1]), steps[|steps| - 1])
  }

  function After(m: Manager, now: int, steps: seq<Step>): State { AfterFrom(Initial(m, now), steps) }

  // ---- what every step keeps ----

  /** A presentable token that can never again pass Refresh. */
  predicate Spent(s: State, token: Token) {
    token.Signed? ==>
      && token.claims in s.handed
      && (token.claims.typ != REFRESH || s.now >= token.claims.expires || token.claims.jti !in s.store)
  }

  ghost predicate ProcOk(s: State, p: Proc) {
    match p
    case Checking(t, c) => t == Signed(c) && c in s.handed && c.typ == REFRESH
    case Signing(t, c) => t == Signed(c) && c in s.handed && c.typ == REFRESH
    case Revoking(t, c) => t == Signed(c) && c in s.handed && c.typ == REFRESH
    case LoggedOut(t) => Spent(s, t)
    case _ => true
  }

  ghost predicate DataOk(s: State) {
    && (forall c :: c in s.handed && c.typ == REFRESH ==> c.jti in s.used)
    && (forall c, d :: c in s.handed && d in s.handed && c.typ == REFRESH && d.typ == REFRESH && c.jti == d.jti ==>
       c == d)
    && (forall jti :: jti in s.store ==> jti in s.used)
    && (forall g :: g in s.grants ==>
          g.claims.typ == ACCESS && g.at <= s.now && g.claims.expires <= g.at + s.m.accessExpire && g.jti in s.used)
  }

  ghost predicate Ok(s: State) {
    DataOk(s) && forall pid :: pid in s.procs ==> ProcOk(s, s.procs[pid])
  }

  lemma ApplyKeepsData(s: State, step: Step)
    requires Ok(s)
    ensures DataOk(Apply(s, step))
  {
    if step.SignRefresh? && step.pid in s.procs { assert ProcOk(s, s.procs[step.pid]); }
  }

  lemma ApplyKeepsSpent(s: State, step: Step, t: Token)
    requires DataOk(s) && Spent(s, t)
    ensures Spent(Apply(s, step), t)
  {}

  lemma ApplyKeepsProcOk(s: State, step: Step, pid: nat)
    requires Ok(s) && pid in Apply(s, step).procs
    ensures ProcOk(Apply(s, step), Apply(s, step).procs[pid])
  {
    if pid in s.procs && s.procs[pid].LoggedOut? { ApplyKeepsSpent(s, step, s.procs[pid].token); }
  }

  lemma ApplyKeepsOk(s: State, step: Step)
    requires Ok(s)
    ensures Ok(Apply(s, step)) && Apply(s, step).now >= s.now && Apply(s, step).m == s.m
    ensures forall t :: Spent(s, t) ==> Spent(Apply(s, step), t)
  {
    ApplyKeepsData(s, step);
    forall t | Spent(s, t) ensures Spent(Apply(s, step), t) { ApplyKeepsSpent(s, step, t); }
    forall pid | pid in Apply(s, step).procs ensures ProcOk(Apply(s, step), Apply(s, step).procs[pid]) {
      ApplyKeepsProcOk(s, step, pid);
    }
  }

  lemma {:induction false} AfterFromKeepsOk(s: State, steps: seq<Step>)
    requires Ok(s)
    ensures Ok(AfterFrom(s, steps)) && AfterFrom(s, steps).now >= s.now && AfterFrom(s, steps).m == s.m
    ensures forall t :: Spent(s, t) ==> Spent(AfterFrom(s, steps), t)
  {
    if steps != [] {
      AfterFromKeepsOk(s, steps[..|steps| - 1]);
      ApplyKeepsOk(AfterFrom(s, steps[..|steps| - 1]), steps[|steps| - 1]);
    }
  }

  // ---- logout is final ----

  ghost predicate HasLoggedOut(s: State, token: Token) {
    exists pid :: pid in s.procs && s.procs[pid] == LoggedOut(token)
  }

  /** A Refresh that can only fail: if it is still to look up its jti, that is gone. */
  predicate Barred(s: State, p: Proc) {
    !p.Refreshed? && !p.Signing? && (p.Checking? ==> p.claims.jti !in s.store)
  }

  lemma ApplyKeepsBarred(s: State, token: Token, pid: nat, step: Step)
    requires Ok(s) && Spent(s, token) && (pid in s.procs && s.procs[pid].token == token ==> Barred(s, s.procs[pid]))
    ensures var u := Apply(s, step); pid in u.procs && u.procs[pid].token == token ==> Barred(u, u.procs[pid])
  {
    if pid in s.procs { assert ProcOk(s, s.procs[pid]); }
  }

  lemma {:induction false} SpentTokensNeverRefresh(s: State, token: Token, pid: nat, more: seq<Step>)
    requires Ok(s) && Spent(s, token) && pid !in s.procs
    ensures var u := AfterFrom(s, more);
      pid in u.procs && u.procs[pid].token == token ==> Barred(u, u.procs[pid])
  {
    if more != [] {
      SpentTokensNeverRefresh(s, token, pid, more[..|more| - 1]);
      AfterFromKeepsOk(s, more[..|more| - 1]);
      ApplyKeepsBarred(AfterFrom(s, more[..|more| - 1]), token, pid, more[|more| - 1]);
    }
  }

  /** Once Logout(t) has returned nil, no Refresh(t) that begins later succeeds, for any string t:
      valid, expired, of the wrong kind or not a token at all. */
  lemma LogoutIsFinal(m: Manager, now: int, steps: seq<Step>, token: Token, pid: nat, more: seq<Step>)
    requires HasLoggedOut(After(m, now, steps), token) && pid !in After(m, now, steps).procs
    ensures var u := AfterFrom(After(m, now, steps), more);
      pid in u.procs && u.procs[pid].token == token ==> !u.procs[pid].Refreshed?
  {
    AfterFromKeepsOk(Initial(m, now), steps);
    var s := After(m, now, steps);
    var logout :| logout in s.procs && s.procs[logout] == LoggedOut(token);
    assert ProcOk(s, s.procs[logout]);
    SpentTokensNeverRefresh(s, token, pid, more);
  }

  // ---- and bounds the access that is left ----

  /** A Refresh of this session has passed its check and will sign whatever happens. */
  ghost predicate RefreshUnderway(s: State, jti: string) {
    exists pid :: pid in s.procs && s.procs[pid].Signing? && s.procs[pid].claims.jti == jti
  }

  lemma {:induction false} NoNewGrants(s: State, jti: string, more: seq<Step>)
    requires Ok(s) && jti in s.used && jti !in s.store && !RefreshUnderway(s, jti)
    ensures var u := AfterFrom(s, more);
      && jti in u.used && jti !in u.store && !RefreshUnderway(u, jti)
      && forall g :: g in u.grants && g.jti == jti ==> g in s.grants
  {
    if more != [] {
      NoNewGrants(s, jti, more[..|more| - 1]);
    }
  }

  /** No Refresh of the session is between its check and its signature, and none that is still to
      check will find the jti. */
  ghost predicate Closed(s: State, jti: string) {
    forall pid :: pid in s.procs ==>
      (s.procs[pid].Checking? || s.procs[pid].Signing?) && s.procs[pid].claims.jti == jti ==>
      Barred(s, s.procs[pid])
  }

  lemma ApplyKeepsClosed(s: State, c: Claims, step: Step)
    requires Ok(s) && c.typ == REFRESH && c in s.handed && Spent(s, Signed(c)) && Closed(s, c.jti)
    ensures Closed(Apply(s, step), c.jti)
    ensures forall g :: g in Apply(s, step).grants && g.jti == c.jti ==> g in s.grants
  {}

  lemma {:induction false} StaysClosed(s: State, c: Claims, more: seq<Step>)
    requires Ok(s) && c.typ == REFRESH && c in s.handed && Spent(s, Signed(c)) && Closed(s, c.jti)
    ensures Closed(AfterFrom(s, more), c.jti)
    ensures forall g :: g in AfterFrom(s, more).grants && g.jti == c.jti ==> g in s.grants
  {
    if more != [] {
      StaysClosed(s, c, more[..|more| - 1]);
      AfterFromKeepsOk(s, more[..|more| - 1]);
      ApplyKeepsClosed(AfterFrom(s, more[..|more| - 1]), c, more[|more| - 1]);
    }
  }

  /** Some access token of the session is accepted at or after the given time, in some future. */
  ghost predicate AcceptedFrom(s: State, jti: string, time: int) {
    exists more, g :: AcceptedIn(AfterFrom(s, more), g, jti, time)
  }

  predicate AcceptedIn(u: State, g: Grant, jti: string, time: int) {
    g in u.grants && g.jti == jti && u.now >= time && Parse(Signed(g.claims), ACCESS, u.now).Some?
  }

  /** When a session's jti has been revoked, its access tokens are all rejected from that time plus
      accessExpire on if and only if no Refresh of the session stands, at that moment, between its
      check and its signature. Lifetimes are whole hours. */
  lemma AccessEndsIff(s: State, jti: string)
    requires Ok(s) && jti in s.used && jti !in s.store && s.m.accessExpire >= 3600 * SECOND
    ensures !AcceptedFrom(s, jti, s.now + s.m.accessExpire) <==> !RefreshUnderway(s, jti)
  {
    if RefreshUnderway(s, jti) {
      var pid :| pid in s.procs && s.procs[pid].Signing? && s.procs[pid].claims.jti == jti;
      UnderwayOutlives(s, jti, pid);
    } else {
      if AcceptedFrom(s, jti, s.now + s.m.accessExpire) {
        var more, g :| AcceptedIn(AfterFrom(s, more), g, jti, s.now + s.m.accessExpire);
        NoNewGrants(s, jti, more);
        AfterFromKeepsOk(s, more);
        assert false;
      }
    }
  }

  /** Logout bounds what is left: once Logout of a refresh token has returned nil and no Refresh of
      its session is in flight, every access token of the session, from Login or from any Refresh,
      is rejected from that time plus accessExpire on. */
  lemma LogoutBoundsAccess(m: Manager, now: int, steps: seq<Step>, c: Claims)
    requires var s := After(m, now, steps); HasLoggedOut(s, Signed(c)) && c.typ == REFRESH && Closed(s, c.jti)
    ensures var s := After(m, now, steps); !AcceptedFrom(s, c.jti, s.now + m.accessExpire)
  {
    AfterFromKeepsOk(Initial(m, now), steps);
    var s := After(m, now, steps);
    var logout :| logout in s.procs && s.procs[logout] == LoggedOut(Signed(c));
    assert ProcOk(s, s.procs[logout]);
    if AcceptedFrom(s, c.jti, s.now + m.accessExpire) {
      var more, g :| AcceptedIn(AfterFrom(s, more), g, c.jti, s.now + m.accessExpire);
      StaysClosed(s, c, more);
      AfterFromKeepsOk(s, more);
      assert false;
    }
  }

  // ---- a session works until it ends ----

  /** Login without fault: both tokens are handed out, and the session is stored. */
  lemma LoginStarts(s: State, pid: nat, user: int, jti: string, d1: nat, d2: nat)
    requires Ok(s) && jti !in s.used && jti != "" && pid !in s.procs
    ensures var u := Apply(s, Login(pid, user, jti, d1, d2, NoFault));
      && Claims(user, "access", "", Truncate(s.now), Truncate(s.now + s.m.accessExpire)) in u.handed
      && Claims(user, "refresh", jti, Truncate(s.now + d1), Truncate(s.now + d1 + s.m.refreshExpire)) in u.handed
      && jti in u.store && u.store[jti] == s.now + d1 + d2 + s.m.refreshExpire && jti in u.used && u.m == s.m && Ok(u)
  {
    ApplyKeepsOk(s, Login(pid, user, jti, d1, d2, NoFault));
  }

  /** In no state of these steps is a logout of the session carried out. */
  ghost predicate NotRevoked(s: State, jti: string, more: seq<Step>) {
    more == [] ||
      var front, last := more[..|more| - 1], more[|more| - 1];
      var t := AfterFrom(s, front);
      && NotRevoked(s, jti, front)
      && (last.Revoke? && last.pid in t.procs && t.procs[last.pid].Revoking? ==> t.procs[last.pid].claims.jti != jti)
  }

  ghost predicate HasEntry(s: State, jti: string, deadline: int, c: Claims) {
    jti in s.store && s.store[jti] == deadline && jti in s.used && c in s.handed
  }

  lemma ApplyKeepsEntry(s: State, step: Step, jti: string, deadline: int, c: Claims)
    requires HasEntry(s, jti, deadline, c)
    requires step.Revoke? && step.pid in s.procs && s.procs[step.pid].Revoking? ==> s.procs[step.pid].claims.jti != jti
    ensures HasEntry(Apply(s, step), jti, deadline, c) && Apply(s, step).m == s.m
  {}

  lemma {:induction false} EntryStays(s: State, jti: string, deadline: int, c: Claims, more: seq<Step>)
    requires HasEntry(s, jti, deadline, c) && NotRevoked(s, jti, more)
    ensures HasEntry(AfterFrom(s, more), jti, deadline, c) && AfterFrom(s, more).m == s.m
  {
    if more != [] {
      EntryStays(s, jti, deadline, c, more[..|more| - 1]);
      ApplyKeepsEntry(AfterFrom(s, more[..|more| - 1]), more[|more| - 1], jti, deadline, c);
    }
  }

  /** A refresh with a token whose session is stored. */
  lemma StoredTokenRefreshes(u: State, deadline: int, c: Claims, pid: nat, e1: nat, e2: nat, f: Fault)
    requires HasEntry(u, c.jti, deadline, c) && c.typ == "refresh" && pid !in u.procs
    ensures var t, at := RefreshCall(u, pid, Signed(c), e1, e2, f), u.now + e1 + e2;
      && pid in t.procs
      && (t.procs[pid].Refreshed? <==> f == NoFault && u.now < c.expires && u.now + e1 < deadline)
      && (t.procs[pid].Refreshed? ==>
            Grant(c.jti, Claims(c.user, "access", "", Truncate(at), Truncate(at + u.m.accessExpire)), at,
              pid) in t.grants)
  {
    RefreshCallOutcome(u, pid, Signed(c), e1, e2, f);
  }

  /** Whatever else happens after a login, as long as the session is not logged out: a refresh with its
      token succeeds exactly up to the expiry of the token, if the lookup does not fail and comes before
      the entry runs out; it gives a fresh access token of the same user. */
  lemma SessionWorks(s: State, pid: nat, user: int, jti: string, d1: nat, d2: nat, more: seq<Step>,
      pid': nat, e1: nat, e2: nat, f: Fault)
    requires Ok(s) && jti !in s.used && jti != "" && pid !in s.procs
    requires var a := Apply(s, Login(pid, user, jti, d1, d2, NoFault));
      NotRevoked(a, jti, more) && pid' !in AfterFrom(a, more).procs
    ensures var u := AfterFrom(Apply(s, Login(pid, user, jti, d1, d2, NoFault)), more);
      var c := Claims(user, "refresh", jti, Truncate(s.now + d1), Truncate(s.now + d1 + s.m.refreshExpire));
      var t, at := RefreshCall(u, pid', Signed(c), e1, e2, f), u.now + e1 + e2;
      && pid' in t.procs
      && (t.procs[pid'].Refreshed? <==>
            f == NoFault && u.now < c.expires && u.now + e1 < s.now + d1 + d2 + s.m.refreshExpire)
      && (t.procs[pid'].Refreshed? ==>
            Grant(jti, Claims(user, "access", "", Truncate(at), Truncate(at + s.m.accessExpire)), at, pid') in t.grants)
  {
    var c := Claims(user, "refresh", jti, Truncate(s.now + d1), Truncate(s.now + d1 + s.m.refreshExpire));
    var deadline := s.now + d1 + d2 + s.m.refreshExpire;
    LoginStarts(s, pid, user, jti, d1, d2);
    EntryStays(Apply(s, Login(pid, user, jti, d1, d2, NoFault)), jti, deadline, c, more);
    StoredTokenRefreshes(AfterFrom(Apply(s, Login(pid, user, jti, d1, d2, NoFault)), more), deadline, c, pid', e1, e2,
      f);
  }

  // ---- serial runs ----

  /** Whole calls that follow each other; pid numbers the call. */
  datatype Call =
    | LogsIn(pid: nat, user: int, jti: string, d1: nat, d2: nat, f: Fault)
    | Refreshes(pid: nat, token: Token, d1: nat, d2: nat, f: Fault)
    | LogsOut(pid: nat, token: Token, f: Fault)
    | Passes(d: nat)

  function Serve(s: State, c: Call): State {
    match c
    case LogsIn(pid, user, jti, d1, d2, f) => Apply(s, Login(pid, user, jti, d1, d2, f))
    case Refreshes(pid, token, d1, d2, f) => RefreshCall(s, pid, token, d1, d2, f)
    case LogsOut(pid, token, f) => LogoutCall(s, pid, token, f)
    case Passes(d) => Apply(s, Wait(d))
  }

  function AfterCalls(m: Manager, now: int, calls: seq<Call>): State {
    if calls == [] then Initial(m, now)
    else Serve(AfterCalls(m, now, calls[..|calls| - 1]), calls[|calls| - 1])
  }

  /** Between calls, no call is under way. */
  ghost predicate AtRest(s: State) {
    forall pid :: pid in s.procs ==> !s.procs[pid].Checking? && !s.procs[pid].Signing? && !s.procs[pid].Revoking?
  }

  lemma ServeKeepsRest(s: State, c: Call)
    requires AtRest(s)
    ensures AtRest(Serve(s, c))
  {
    if c.Refreshes? {
      var a := Apply(Apply(s, BeginRefresh(c.pid, c.token)), Wait(c.d1));
      assert forall pid :: pid in a.procs && pid != c.pid ==> pid in s.procs && a.procs[pid] == s.procs[pid];
      var b := Apply(Apply(a, CheckRefresh(c.pid, c.f)), Wait(c.d2));
      assert forall pid :: pid in b.procs && pid != c.pid ==> pid in s.procs && b.procs[pid] == s.procs[pid];
      assert c.pid in b.procs ==> !b.procs[c.pid].Checking? && !b.procs[c.pid].Revoking?;
    }
  }

  lemma RefreshCallIsARun(s: State, steps: seq<Step>, t: State, c: Call) returns (longer: seq<Step>)
    requires c.Refreshes? && AfterFrom(s, steps) == t
    ensures AfterFrom(s, longer) == Serve(t, c)
  {
    OneMore(s, steps, BeginRefresh(c.pid, c.token));
    longer := steps + [BeginRefresh(c.pid, c.token)];
    OneMore(s, longer, Wait(c.d1));
    longer := longer + [Wait(c.d1)];
    OneMore(s, longer, CheckRefresh(c.pid, c.f));
    longer := longer + [CheckRefresh(c.pid, c.f)];
    OneMore(s, longer, Wait(c.d2));
    longer := longer + [Wait(c.d2)];
    OneMore(s, longer, SignRefresh(c.pid));
    longer := longer + [SignRefresh(c.pid)];
  }

  lemma OtherCallIsARun(s: State, steps: seq<Step>, t: State, c: Call) returns (longer: seq<Step>)
    requires !c.Refreshes? && AfterFrom(s, steps) == t
    ensures AfterFrom(s, longer) == Serve(t, c)
  {
    match c {
      case LogsIn(pid, user, jti, d1, d2, f) =>
        OneMore(s, steps, Login(pid, user, jti, d1, d2, f));
        longer := steps + [Login(pid, user, jti, d1, d2, f)];
      case LogsOut(pid, token, f) =>
        OneMore(s, steps, BeginLogout(pid, token));
        OneMore(s, steps + [BeginLogout(pid, token)], Revoke(pid, f));
        longer := steps + [BeginLogout(pid, token)] + [Revoke(pid, f)];
      case Passes(d) =>
        OneMore(s, steps, Wait(d));
        longer := steps + [Wait(d)];
    }
  }

  lemma {:induction false} SerialCallsAreRuns(m: Manager, now: int, calls: seq<Call>) returns (steps: seq<Step>)
    ensures After(m, now, steps) == AfterCalls(m, now, calls) && AtRest(AfterCalls(m, now, calls))
  {
    steps := [];
    if calls != [] {
      var front, last := calls[..|calls| - 1], calls[|calls| - 1];
      steps := SerialCallsAreRuns(m, now, front);
      ServeKeepsRest(AfterCalls(m, now, front), last);
      if last.Refreshes? {
        steps := RefreshCallIsARun(Initial(m, now), steps, AfterCalls(m, now, front), last);
      } else {
        steps := OtherCallIsARun(Initial(m, now), steps, AfterCalls(m, now, front), last);
      }
    }
  }

  /** In serial runs the bound needs no proviso: once Logout of a refresh token has returned nil, every
      access token of its session is rejected from that time plus accessExpire on. */
  lemma SerialLogoutBoundsAccess(m: Manager, now: int, calls: seq<Call>, c: Claims)
    requires HasLoggedOut(AfterCalls(m, now, calls), Signed(c)) && c.typ == REFRESH
    ensures var s := AfterCalls(m, now, calls); !AcceptedFrom(s, c.jti, s.now + m.accessExpire)
  {
    var steps := SerialCallsAreRuns(m, now, calls);
    LogoutBoundsAccess(m, now, steps, c);
  }

  lemma UnderwayOutlives(s: State, jti: string, pid: nat)
    requires pid in s.procs && s.procs[pid].Signing? && s.procs[pid].claims.jti == jti
      && s.m.accessExpire >= 3600 * SECOND
    ensures AcceptedFrom(s, jti, s.now + s.m.accessExpire)
  {
    var steps := ThreeMore(s, Wait(2 * SECOND), SignRefresh(pid), Wait(s.m.accessExpire - 2 * SECOND));
    var g := SignedLater(s, jti, pid);
    assert AcceptedIn(AfterFrom(s, steps), g, jti, s.now + s.m.accessExpire);
  }

  /** A login whose Refresh has been checked and not yet signed. */
  lemma LoginAndCheck(s: State, user: int, jti: string, token: Token) returns (t: State)
    requires s.procs == map[] && s.used == {} && s.store == map[] && jti != "" && s.m.refreshExpire >= 3600 * SECOND
    requires token == Sign(user, REFRESH, jti, s.m.refreshExpire, s.now)
    ensures t == Apply(Apply(Apply(s, Login(0, user, jti, 0, 0, NoFault)), BeginRefresh(1, token)),
      CheckRefresh(1, NoFault))
    ensures t.procs == map[1 := Signing(token, token.claims)] && Presentable(t, token) && t.now == s.now && t.m == s.m
  {
    var a := Apply(s, Login(0, user, jti, 0, 0, NoFault));
    var b := Apply(a, BeginRefresh(1, token));
    assert b.procs == map[1 := Checking(token, token.claims)];
    t := Apply(b, CheckRefresh(1, NoFault));
  }

  lemma LogoutMeanwhile(s: State, token: Token)
    requires token.Signed? && s.procs == map[1 := Signing(token, token.claims)] && Presentable(s, token)
    requires Parse(token, REFRESH, s.now).Some?
    ensures var t := Apply(Apply(s, BeginLogout(2, token)), Revoke(2, NoFault));
      && HasLoggedOut(t, token) && 1 in t.procs && t.procs[1] == Signing(token, token.claims)
      && t.now == s.now && t.m == s.m
  {
    var t := Apply(Apply(s, BeginLogout(2, token)), Revoke(2, NoFault));
    assert t.procs[2] == LoggedOut(token);
  }

  lemma RaceIsReachable(m: Manager, now: int, user: int, jti: string) returns (steps: seq<Step>, token: Token)
    requires m.accessExpire >= 3600 * SECOND && m.refreshExpire >= 3600 * SECOND && jti != ""
    ensures var s := After(m, now, steps);
      && HasLoggedOut(s, token) && token.Signed? && token.claims.jti == jti && s.m == m
      && 1 in s.procs && s.procs[1] == Signing(token, token.claims)
  {
    var s0 := Initial(m, now);
    token := Sign(user, REFRESH, jti, m.refreshExpire, now);
    var front := ThreeMore(s0, Login(0, user, jti, 0, 0, NoFault), BeginRefresh(1, token), CheckRefresh(1, NoFault));
    var s3 := LoginAndCheck(s0, user, jti, token);
    LogoutMeanwhile(s3, token);
    OneMore(s0, front, BeginLogout(2, token));
    OneMore(s0, front + [BeginLogout(2, token)], Revoke(2, NoFault));
    steps := front + [BeginLogout(2, token)] + [Revoke(2, NoFault)];
  }

  /** The race exists. A user logs in and refreshes; between the check and the signature of that
      Refresh, Logout returns nil. Then a token of the session is accepted in some future at the
      time from which all of them should be rejected. */
  lemma LogoutRacesRefresh(m: Manager, now: int, user: int, jti: string) returns (steps: seq<Step>, token: Token)
    requires m.accessExpire >= 3600 * SECOND && m.refreshExpire >= 3600 * SECOND && jti != ""
    ensures var s := After(m, now, steps);
      && HasLoggedOut(s, token) && token.Signed? && token.claims.jti == jti
      && RefreshUnderway(s, jti) && AcceptedFrom(s, jti, s.now + m.accessExpire)
  {
    steps, token := RaceIsReachable(m, now, user, jti);
    UnderwayOutlives(After(m, now, steps), jti, 1);
  }

  lemma ThreeMore(s: State, a: Step, b: Step, c: Step) returns (steps: seq<Step>)
    ensures AfterFrom(s, steps) == Apply(Apply(Apply(s, a), b), c)
  {
    OneMore(s, [], a);
    OneMore(s, [] + [a], b);
    OneMore(s, [] + [a] + [b], c);
    steps := [] + [a] + [b] + [c];
  }

  lemma SignedLater(s: State, jti: string, pid: nat) returns (g: Grant)
    requires pid in s.procs && s.procs[pid].Signing? && s.procs[pid].claims.jti == jti
      && s.m.accessExpire >= 3600 * SECOND
    ensures var u := Apply(Apply(Apply(s, Wait(2 * SECOND)), SignRefresh(pid)), Wait(s.m.accessExpire - 2 * SECOND));
      AcceptedIn(u, g, jti, s.now + s.m.accessExpire)
  {
    var a := Apply(s, Wait(2 * SECOND));
    var b := Apply(a, SignRefresh(pid));
    var u := Apply(b, Wait(s.m.accessExpire - 2 * SECOND));
    var access := Sign(s.procs[pid].claims.user, ACCESS, "", s.m.accessExpire, s.now + 2 * SECOND).claims;
    g := Grant(jti, access, s.now + 2 * SECOND, pid);
    assert b.grants == s.grants + {g} && u.now == s.now + s.m.accessExpire;
    assert AcceptedIn(u, g, jti, s.now + s.m.accessExpire);
  }

  lemma OneMore(s: State, steps: seq<Step>, step: Step)
    ensures AfterFrom(s, steps + [step]) == Apply(AfterFrom(s, steps), step)
  {
    assert (steps + [step])[..|steps|] == steps;
  }
}
