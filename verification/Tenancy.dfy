// Users, tenants and memberships: the tables behind internal/infra/mysql/user_repo.go, and the
// two transactions of Register in internal/service/auth/auth.go, interleaved with everything else.
module Tenancy {
  import opened Prelude

  datatype Membership = Membership(user: int, tag: string, primary: bool)

  datatype Tenant = Tenant(name: string, parent: Option<string>, creator: int, created: int)

  /** users: id to username. tenants: by tag. members: user_tenants in storage order. */
  datatype Db = Db(users: map<int, string>, tenants: map<string, Tenant>, members: seq<Membership>)

  datatype Error = StoreFault | Conflict | AlreadyExists | NotFound

  const PRIVATE := "PRIVATE_"
  const COLUMN_WIDTH: nat := 64  // VARCHAR(64): users.username and tenants.tag

  // ---- queries ----

  predicate IsMember(ms: seq<Membership>, user: int, tag: string) {
    exists k :: 0 <= k < |ms| && ms[k].user == user && ms[k].tag == tag
  }

  predicate IsPrimary(ms: seq<Membership>, user: int, tag: string) {
    Membership(user, tag, true) in ms
  }

  /** The rows of one user with the given flag, in storage order. */
  function Select(ms: seq<Membership>, user: int, primary: bool): (r: seq<Membership>)
    ensures forall m :: m in r <==> m in ms && m.user == user && m.primary == primary
    ensures r == [] <==> forall m :: m in ms ==> !(m.user == user && m.primary == primary)
  {
    if ms == [] then []
    else
      assert forall m :: m in ms <==> m == ms[0] || m in ms[1..];
      (if ms[0].user == user && ms[0].primary == primary then [ms[0]] else []) + Select(ms[1..], user, primary)
  }

  /** The first primary membership, as GetPrimaryTag and fillPrimaryTenant select it. */
  function PrimaryTag(ms: seq<Membership>, user: int): (r: Option<string>)
    ensures r.Some? ==> IsPrimary(ms, user, r.value)
    ensures r.None? ==> forall tag :: !IsPrimary(ms, user, tag)
  {
    var found := Select(ms, user, true);
    if found == [] then None
    else
      assert found[0] in found;
      Some(found[0].tag)
  }

  /** The join of ListByUser: a membership counts only together with its tenant. */
  ghost predicate Joined(db: Db, user: int, m: Membership) {
    m in db.members && m.user == user && m.tag in db.tenants
  }

  /** The ORDER BY of ListByUser: primary entries first, then by the age of the tenant. */
  predicate Precedes(db: Db, a: Membership, b: Membership) {
    && (b.primary ==> a.primary)
    && (a.primary == b.primary && a.tag in db.tenants && b.tag in db.tenants ==>
          db.tenants[a.tag].created <= db.tenants[b.tag].created)
  }

  /** An answer to the query of ListByUser; among equals the database may order as it likes. */
  ghost predicate IsTenantListing(db: Db, user: int, list: seq<Membership>) {
    && (forall m :: m in list <==> Joined(db, user, m))
    && (forall j, k :: 0 <= j < k < |list| ==> list[j] != list[k] && Precedes(db, list[j], list[k]))
  }

  // ---- updates ----

  function ClearPrimary(ms: seq<Membership>, user: int): (r: seq<Membership>)
    ensures |r| == |ms|
    ensures forall k :: 0 <= k < |ms| ==>
      r[k] == if ms[k].user == user then ms[k].(primary := false) else ms[k]
  {
    seq(|ms|, k requires 0 <= k < |ms| => if ms[k].user == user then ms[k].(primary := false) else ms[k])
  }

  function RaisePrimary(ms: seq<Membership>, user: int, tag: string): (r: seq<Membership>)
    ensures |r| == |ms|
    ensures forall k :: 0 <= k < |ms| ==>
      r[k] == if ms[k].user == user && ms[k].tag == tag then ms[k].(primary := true) else ms[k]
  {
    seq(|ms|, k requires 0 <= k < |ms| =>
      if ms[k].user == user && ms[k].tag == tag then ms[k].(primary := true) else ms[k])
  }

  function CreateUser(db: Db, id: int, name: string, f: Fault): (Db, Option<Error>) {
    if f.FailBefore? || |name| > COLUMN_WIDTH then (db, Some(StoreFault))
    else if id in db.users || name in db.users.Values then (db, Some(Conflict))
    else (db.(users := db.users[id := name]), if f.Reported() then None else Some(StoreFault))
  }

  /** The column widths of the tenants table. */
  predicate FitsTenants(tag: string, t: Tenant) {
    |tag| <= COLUMN_WIDTH && |t.name| <= 128 && (t.parent.Some? ==> |t.parent.value| <= COLUMN_WIDTH)
  }

  /** The tenant that Register makes for a new user; its name says "personal space of". */
  function PrivateTenant(username: string, id: int, now: int): Tenant {
    Tenant(username + " \U{7684}\U{4E2A}\U{4EBA}\U{7A7A}\U{95F4}", None, id, now)
  }

  function WithTenant(db: Db, tag: string, t: Tenant, primary: bool): Db {
    var ms := if primary then ClearPrimary(db.members, t.creator) else db.members;
    db.(tenants := db.tenants[tag := t], members := ms + [Membership(t.creator, tag, primary)])
  }

  /** CreateWithMembership: one transaction, so a fault leaves either nothing or everything. */
  function CreateTenant(db: Db, tag: string, t: Tenant, primary: bool, f: Fault): (Db, Option<Error>) {
    if f.FailBefore? || !FitsTenants(tag, t) then (db, Some(StoreFault))
    else if tag in db.tenants || IsMember(db.members, t.creator, tag) then (db, Some(Conflict))
    else (WithTenant(db, tag, t, primary), if f.Reported() then None else Some(StoreFault))
  }

  function SetPrimary(db: Db, user: int, tag: string, f: Fault): (Db, Option<Error>) {
    if f.FailBefore? then (db, Some(StoreFault))
    else if !IsMember(db.members, user, tag) then (db, Some(NotFound))
    else (db.(members := RaisePrimary(ClearPrimary(db.members, user), user, tag)),
          if f.Reported() then None else Some(StoreFault))
  }

  // ---- what the transactions answer and leave behind ----

  lemma CreateUserAnswers(db: Db, id: int, name: string, f: Fault)
    ensures var (db', err) := CreateUser(db, id, name, f);
      if f == FailBefore || |name| > 64 then db' == db && err == Some(StoreFault)
      else if id in db.users || name in db.users.Values then db' == db && err == Some(Conflict)
      else db' == db.(users := db.users[id := name]) && err == if f == NoFault then None else Some(StoreFault)
  {}

  /** Membership for membership: nobody loses one, and only the creator's flags go, and only for a new
      default tenant. */
  lemma CreateTenantAnswers(db: Db, tag: string, t: Tenant, primary: bool, f: Fault)
    ensures var (db', err) := CreateTenant(db, tag, t, primary, f); var ms, ms' := db.members, db'.members;
      if f == FailBefore || |tag| > 64 || |t.name| > 128 || (t.parent.Some? && |t.parent.value| > 64) then
        db' == db && err == Some(StoreFault)
      else if tag in db.tenants || exists k :: 0 <= k < |ms| && ms[k].user == t.creator && ms[k].tag == tag then
        db' == db && err == Some(Conflict)
      else
        && err == (if f == NoFault then None else Some(StoreFault))
        && db'.users == db.users && db'.tenants == db.tenants[tag := t]
        && |ms'| == |ms| + 1 && ms'[|ms|] == Membership(t.creator, tag, primary)
        && forall k :: 0 <= k < |ms| ==>
             ms'[k] == Membership(ms[k].user, ms[k].tag, ms[k].primary && !(primary && ms[k].user == t.creator))
  {}

  /** Membership for membership: the user's flags are raised for this tag and lowered for all others. */
  lemma SetPrimaryAnswers(db: Db, user: int, tag: string, f: Fault)
    ensures var (db', err) := SetPrimary(db, user, tag, f); var ms, ms' := db.members, db'.members;
      if f == FailBefore then db' == db && err == Some(StoreFault)
      else if forall k :: 0 <= k < |ms| ==> !(ms[k].user == user && ms[k].tag == tag) then
        db' == db && err == Some(NotFound)
      else
        && err == (if f == NoFault then None else Some(StoreFault))
        && db'.users == db.users && db'.tenants == db.tenants && |ms'| == |ms|
        && forall k :: 0 <= k < |ms| ==>
             ms'[k] == Membership(ms[k].user, ms[k].tag, if ms[k].user == user then ms[k].tag == tag else ms[k].primary)
  {}

  // ---- interleaved runs ----

  /** pending: users whose Register stands between its two transactions.
      registered: users whose Register returned success. */
  datatype State = State(db: Db, pending: set<int>, registered: set<int>)

  datatype Step =
    | RegisterUser(id: int, name: string, f: Fault)
    | RegisterTenant(id: int, now: int, f: Fault)
    | CreateTeam(tag: string, t: Tenant, primary: bool, f: Fault)
    | ChoosePrimary(user: int, tag: string, f: Fault)

  const INITIAL := State(Db(map[], map[], []), {}, {})

  function Apply(s: State, step: Step): State {
    match step
    case RegisterUser(id, name, f) =>
      var (db, err) := CreateUser(s.db, id, name, f);
      s.(db := db, pending := if err.None? then s.pending + {id} else s.pending)
    case RegisterTenant(id, now, f) =>
      if id !in s.pending || id !in s.db.users then s
      else
        var (db, err) := CreateTenant(s.db, PRIVATE + s.db.users[id], PrivateTenant(s.db.users[id], id, now), true, f);
        State(db, s.pending - {id}, if err.None? then s.registered + {id} else s.registered)
    case CreateTeam(tag, t, primary, f) =>
      if t.creator in s.db.users then s.(db := CreateTenant(s.db, tag, t, primary, f).0) else s
    case ChoosePrimary(user, tag, f) =>
      s.(db := SetPrimary(s.db, user, tag, f).0)
  }

  function AfterFrom(s: State, steps: seq<Step>): State {
    if steps == [] then s else Apply(AfterFrom(s, steps[..|steps| - 1]), steps[|steps| - 1])
  }

  function After(steps: seq<Step>): State { AfterFrom(INITIAL, steps) }

  // ---- the default-tenant invariant ----

  ghost predicate AtMostOnePrimary(ms: seq<Membership>) {
    forall j, k :: 0 <= j < |ms| && 0 <= k < |ms| && ms[j].primary && ms[k].primary && ms[j].user == ms[k].user ==>
      j == k
  }

  /** The primary key (user_id, tenant_tag). */
  ghost predicate DistinctPairs(ms: seq<Membership>) {
    forall j, k :: 0 <= j < |ms| && 0 <= k < |ms| && ms[j].user == ms[k].user && ms[j].tag == ms[k].tag ==> j == k
  }

  ghost predicate HasPrimary(ms: seq<Membership>, user: int) {
    exists k :: 0 <= k < |ms| && ms[k].user == user && ms[k].primary
  }

  ghost predicate Sound(s: State) {
    && AtMostOnePrimary(s.db.members)
    && DistinctPairs(s.db.members)
    && (forall u :: u in s.registered ==> HasPrimary(s.db.members, u))
  }

  lemma CreateTenantKeepsPrimaries(db: Db, tag: string, t: Tenant, primary: bool, f: Fault)
    requires AtMostOnePrimary(db.members) && DistinctPairs(db.members)
    ensures var (db', err) := CreateTenant(db, tag, t, primary, f);
      && AtMostOnePrimary(db'.members) && DistinctPairs(db'.members)
      && (forall u :: HasPrimary(db.members, u) ==> HasPrimary(db'.members, u))
      && (err.None? && primary ==> IsPrimary(db'.members, t.creator, tag) && HasPrimary(db'.members, t.creator))
  {
    var ms, ms' := db.members, CreateTenant(db, tag, t, primary, f).0.members;
    if ms' != ms {
      var last := |ms'| - 1;
      assert ms'[last] == Membership(t.creator, tag, primary);
      forall u | HasPrimary(ms, u) ensures HasPrimary(ms', u) {
        var k :| 0 <= k < |ms| && ms[k].user == u && ms[k].primary;
        assert if u == t.creator && primary then ms'[last].user == u && ms'[last].primary
               else ms'[k].user == u && ms'[k].primary;
      }
    }
  }

  /** Clearing a user's flags and raising one: the user's default tenant is now that one, the others
      keep theirs. */
  lemma RaisedIsTheOnlyPrimary(ms: seq<Membership>, user: int, tag: string)
    requires AtMostOnePrimary(ms) && DistinctPairs(ms) && IsMember(ms, user, tag)
    ensures var r := RaisePrimary(ClearPrimary(ms, user), user, tag);
      && AtMostOnePrimary(r) && DistinctPairs(r) && IsPrimary(r, user, tag)
      && (forall u :: HasPrimary(ms, u) ==> HasPrimary(r, u))
  {
    var r := RaisePrimary(ClearPrimary(ms, user), user, tag);
    var m :| 0 <= m < |ms| && ms[m].user == user && ms[m].tag == tag;
    assert r[m] == Membership(user, tag, true);
    forall u | HasPrimary(ms, u) ensures HasPrimary(r, u) {
      var k :| 0 <= k < |ms| && ms[k].user == u && ms[k].primary;
      assert if u == user then r[m].user == u else r[k] == ms[k];
    }
  }

  lemma SetPrimaryKeepsPrimaries(db: Db, user: int, tag: string, f: Fault)
    requires AtMostOnePrimary(db.members) && DistinctPairs(db.members)
    ensures var (db', err) := SetPrimary(db, user, tag, f);
      && AtMostOnePrimary(db'.members) && DistinctPairs(db'.members)
      && (forall u :: HasPrimary(db.members, u) ==> HasPrimary(db'.members, u))
      && (err.None? ==> PrimaryTag(db'.members, user) == Some(tag))
      && (err == Some(NotFound) ==> !IsMember(db.members, user, tag) && db' == db)
  {
    var (db', err) := SetPrimary(db, user, tag, f);
    if !f.FailBefore? && IsMember(db.members, user, tag) {
      RaisedIsTheOnlyPrimary(db.members, user, tag);
      OnePrimaryIsThePrimaryTag(db'.members, user, tag);
    }
  }

  lemma OnePrimaryIsThePrimaryTag(ms: seq<Membership>, user: int, tag: string)
    requires AtMostOnePrimary(ms) && IsPrimary(ms, user, tag)
    ensures PrimaryTag(ms, user) == Some(tag)
  {
    var t := PrimaryTag(ms, user).value;
    var j :| 0 <= j < |ms| && ms[j] == Membership(user, tag, true);
    var k :| 0 <= k < |ms| && ms[k] == Membership(user, t, true);
  }

  lemma ApplyKeepsSound(s: State, step: Step)
    requires Sound(s)
    ensures Sound(Apply(s, step))
  {
    match step
    case RegisterUser(id, name, f) =>
    case RegisterTenant(id, now, f) =>
      if id in s.db.users {
        CreateTenantKeepsPrimaries(s.db, PRIVATE + s.db.users[id], PrivateTenant(s.db.users[id], id, now), true, f);
      }
    case CreateTeam(tag, t, primary, f) => CreateTenantKeepsPrimaries(s.db, tag, t, primary, f);
    case ChoosePrimary(user, tag, f) => SetPrimaryKeepsPrimaries(s.db, user, tag, f);
  }

  /** In every run each user has at most one default tenant, and each user whose Register
      returned success has exactly one. */
  lemma {:induction false} DefaultTenantInvariant(steps: seq<Step>)
    ensures Sound(After(steps))
  {
    if steps != [] {
      DefaultTenantInvariant(steps[..|steps| - 1]);
      ApplyKeepsSound(After(steps[..|steps| - 1]), steps[|steps| - 1]);
    }
  }

  ghost predicate MembersHaveTenants(db: Db) {
    forall k :: 0 <= k < |db.members| ==> db.members[k].tag in db.tenants
  }

  /** In every run the join of ListByUser drops nothing. */
  lemma {:induction false} JoinIsComplete(steps: seq<Step>)
    ensures MembersHaveTenants(After(steps).db)
  {
    if steps != [] { JoinIsComplete(steps[..|steps| - 1]); }
  }

  /** The three views of the default tenant agree, whatever order the database gives to equals: the
      selected tag, the head of ListByUser, and the only entry of ListByUser that is flagged. */
  lemma PrimaryViewsAgree(steps: seq<Step>, user: int, list: seq<Membership>)
    requires IsTenantListing(After(steps).db, user, list)
    ensures var ms := After(steps).db.members;
      && (forall tag :: PrimaryTag(ms, user) == Some(tag) <==> (list != [] && list[0] == Membership(user, tag, true)))
      && (forall k :: 0 < k < |list| ==> !list[k].primary)
      && (forall tag :: PrimaryTag(ms, user) == Some(tag) <==> IsPrimary(ms, user, tag))
      && (forall tag :: IsMember(ms, user, tag) <==> exists k :: 0 <= k < |list| && list[k].tag == tag)
  {
    DefaultTenantInvariant(steps);
    JoinIsComplete(steps);
    var db := After(steps).db;
    forall k | 0 < k < |list| ensures !list[k].primary {
      assert list[0] in list && list[k] in list && Precedes(db, list[0], list[k]);
    }
    forall tag | IsPrimary(db.members, user, tag)
      ensures PrimaryTag(db.members, user) == Some(tag) && list != [] && list[0] == Membership(user, tag, true)
    {
      OnePrimaryIsThePrimaryTag(db.members, user, tag);
      assert Membership(user, tag, true) in list;
    }
    forall tag | list != [] && list[0] == Membership(user, tag, true) ensures IsPrimary(db.members, user, tag) {
      assert list[0] in list;
    }
    forall tag ensures IsMember(db.members, user, tag) <==> exists k :: 0 <= k < |list| && list[k].tag == tag {
      ListedIsMember(db, user, list, tag);
    }
  }

  lemma ListedIsMember(db: Db, user: int, list: seq<Membership>, tag: string)
    requires IsTenantListing(db, user, list) && MembersHaveTenants(db)
    ensures IsMember(db.members, user, tag) <==> exists k :: 0 <= k < |list| && list[k].tag == tag
  {
    if IsMember(db.members, user, tag) {
      var j :| 0 <= j < |db.members| && db.members[j].user == user && db.members[j].tag == tag;
      assert Joined(db, user, db.members[j]) && db.members[j] in list;
    }
    if k :| 0 <= k < |list| && list[k].tag == tag { assert list[k] in list; }
  }

  // ---- when Register can fail at its second transaction ----

  ghost predicate OnlyRegister(steps: seq<Step>) {
    forall k :: 0 <= k < |steps| ==> !steps[k].CreateTeam?
  }

  ghost predicate PrivateTagsOnly(s: State) {
    && s.pending <= s.db.users.Keys
    && (forall i, j :: i in s.db.users && j in s.db.users && s.db.users[i] == s.db.users[j] ==> i == j)
    && (forall tag :: tag in s.db.tenants ==>
          var u := s.db.tenants[tag].creator; u in s.db.users && u !in s.pending && tag == PRIVATE + s.db.users[u])
    && (forall k :: 0 <= k < |s.db.members| ==>
          var m := s.db.members[k]; m.tag in s.db.tenants && s.db.tenants[m.tag].creator == m.user)
  }

  lemma UserStepKeepsPrivateTags(s: State, id: int, name: string, f: Fault)
    requires PrivateTagsOnly(s)
    ensures PrivateTagsOnly(Apply(s, RegisterUser(id, name, f)))
  {
    if Apply(s, RegisterUser(id, name, f)).db != s.db {
      assert name !in s.db.users.Values;
      assert forall i :: i in s.db.users ==> s.db.users[i] in s.db.users.Values;
    }
  }

  lemma TenantStepKeepsPrivateTags(s: State, id: int, now: int, f: Fault)
    requires PrivateTagsOnly(s)
    ensures PrivateTagsOnly(Apply(s, RegisterTenant(id, now, f)))
  {
    if id in s.pending { PrivateTagIsFree(s, id); }
  }

  lemma ApplyKeepsPrivateTags(s: State, step: Step)
    requires PrivateTagsOnly(s) && !step.CreateTeam?
    ensures PrivateTagsOnly(Apply(s, step))
  {
    if step.RegisterUser? { UserStepKeepsPrivateTags(s, step.id, step.name, step.f); }
    if step.RegisterTenant? { TenantStepKeepsPrivateTags(s, step.id, step.now, step.f); }
  }

  lemma {:induction false} PrivateTagsStay(s: State, steps: seq<Step>)
    requires PrivateTagsOnly(s) && OnlyRegister(steps)
    ensures PrivateTagsOnly(AfterFrom(s, steps))
  {
    if steps != [] {
      PrivateTagsStay(s, steps[..|steps| - 1]);
      ApplyKeepsPrivateTags(AfterFrom(s, steps[..|steps| - 1]), steps[|steps| - 1]);
    }
  }

  lemma TagsArePrivate(steps: seq<Step>)
    requires OnlyRegister(steps)
    ensures PrivateTagsOnly(After(steps))
  {
    PrivateTagsStay(INITIAL, steps);
  }

  /** Without database faults the second transaction of Register succeeds exactly when
      "PRIVATE_" plus the username fits the tag column. Usernames of 57 to 64 characters pass
      every check of the first transaction and fail here. */
  lemma TenantStepSucceedsIff(steps: seq<Step>, id: int, now: int)
    requires OnlyRegister(steps) && id in After(steps).pending
    ensures var s := After(steps);
      && id in s.db.users
      && (CreateTenant(s.db, PRIVATE + s.db.users[id], PrivateTenant(s.db.users[id], id, now), true, NoFault).1 == None
          <==> |s.db.users[id]| <= COLUMN_WIDTH - |PRIVATE|)
      && (id in Apply(s, RegisterTenant(id, now, NoFault)).registered
          <==> id in s.registered || |s.db.users[id]| <= COLUMN_WIDTH - |PRIVATE|)
  {
    TagsArePrivate(steps);
    PrivateTagIsFree(After(steps), id);
  }

  lemma PrivateTagIsFree(s: State, id: int)
    requires PrivateTagsOnly(s) && id in s.pending
    ensures id in s.db.users && PRIVATE + s.db.users[id] !in s.db.tenants
    ensures forall tag :: !IsMember(s.db.members, id, tag)
  {
    forall name: string ensures (PRIVATE + name)[|PRIVATE|..] == name {}
  }

  // ---- accounts without a tenant ----

  ghost predicate Orphan(s: State, id: int) {
    id in s.db.users && forall tag :: !IsMember(s.db.members, id, tag)
  }

  /** No step of this registration is among these. */
  ghost predicate LeaveAlone(steps: seq<Step>, id: int) {
    forall k :: 0 <= k < |steps| ==>
      (steps[k].RegisterUser? ==> steps[k].id != id) && (steps[k].RegisterTenant? ==> steps[k].id != id)
  }

  /** The second transaction leaves an account without a tenant exactly if it fails before taking
      effect or the tag is too long. A fault after it took effect is reported as an error although the
      tenant is there. */
  lemma TenantStepOrphansIff(s: State, id: int, now: int, f: Fault)
    requires PrivateTagsOnly(s) && id in s.pending
    ensures id in s.db.users
    ensures Orphan(Apply(s, RegisterTenant(id, now, f)), id)
      <==> f.FailBefore? || |s.db.users[id]| > COLUMN_WIDTH - |PRIVATE|
  {
    PrivateTagIsFree(s, id);
    var name := s.db.users[id];
    if !f.FailBefore? && |PRIVATE + name| <= COLUMN_WIDTH {
      var ms := WithTenant(s.db, PRIVATE + name, PrivateTenant(name, id, now), true).members;
      assert ms[|ms| - 1] == Membership(id, PRIVATE + name, true);
      assert !IsMember(s.db.members, id, PRIVATE + name);
      assert Apply(s, RegisterTenant(id, now, f)).db.members == ms && IsMember(ms, id, PRIVATE + name);
    }
  }

  /** No later call gives an orphaned account a tenant, and so a default one, except the second
      transaction of its own registration where that is still to come. */
  lemma {:induction false} OrphansStayOrphans(s: State, id: int, steps: seq<Step>)
    requires Orphan(s, id) && OnlyRegister(steps) && (id !in s.pending || LeaveAlone(steps, id))
    ensures var t := AfterFrom(s, steps);
      Orphan(t, id) && PrimaryTag(t.db.members, id) == None && (id in t.pending ==> id in s.pending)
  {
    if steps != [] {
      OrphansStayOrphans(s, id, steps[..|steps| - 1]);
      StaysOrphan(AfterFrom(s, steps[..|steps| - 1]), id, steps[|steps| - 1]);
    }
    var t := AfterFrom(s, steps);
    if PrimaryTag(t.db.members, id).Some? {
      assert IsMember(t.db.members, id, PrimaryTag(t.db.members, id).value);
    }
  }

  lemma StaysOrphan(s: State, id: int, step: Step)
    requires Orphan(s, id) && !step.CreateTeam? && (step.RegisterTenant? && step.id == id ==> id !in s.pending)
    ensures Orphan(Apply(s, step), id) && (id in Apply(s, step).pending ==> id in s.pending)
  {
    var t := Apply(s, step);
    forall tag ensures !IsMember(t.db.members, id, tag) {
      assert forall tag' :: !IsMember(s.db.members, id, tag');
      if IsMember(t.db.members, id, tag) {
        var k :| 0 <= k < |t.db.members| && t.db.members[k].user == id;
        assert k < |s.db.members| ==> s.db.members[k].user == id && IsMember(s.db.members, id, s.db.members[k].tag);
      }
    }
  }

  lemma {:induction false} OthersLeaveAccount(s: State, id: int, steps: seq<Step>)
    requires LeaveAlone(steps, id)
    ensures var t := AfterFrom(s, steps);
      && (id in t.db.users <==> id in s.db.users) && (id in s.db.users ==> t.db.users[id] == s.db.users[id])
      && (id in t.pending <==> id in s.pending)
  {
    if steps != [] { OthersLeaveAccount(s, id, steps[..|steps| - 1]); }
  }

  /** How the second transaction comes about: not at all, because the process has died, or with the
      clock and the fault it meets. */
  datatype Second = Dies | Makes(now: int, f: Fault)

  function Registered(s: State, id: int, name: string, f: Fault, between: seq<Step>, second: Second): State {
    var t := AfterFrom(Apply(s, RegisterUser(id, name, f)), between);
    if second.Dies? then t else Apply(t, RegisterTenant(id, second.now, second.f))
  }

  predicate IsCreated(db: Db, name: string, f: Fault) {
    !f.FailBefore? && |name| <= COLUMN_WIDTH && name !in db.users.Values
  }

  /** The registration as a whole, other calls in between included. It leaves an account without a
      tenant if and only if the account was created and either the reply of that was lost, or the
      process died before the second transaction, or that failed before taking effect, or the username
      has more than 56 characters. */
  lemma RegistrationOrphansIff(steps: seq<Step>, id: int, name: string, f: Fault, between: seq<Step>, second: Second)
    requires OnlyRegister(steps) && OnlyRegister(between) && LeaveAlone(between, id) && id !in After(steps).db.users
    ensures Orphan(Registered(After(steps), id, name, f, between, second), id) <==>
      IsCreated(After(steps).db, name, f)
      && (!f.Reported() || second.Dies? || second.f.FailBefore? || |name| > COLUMN_WIDTH - |PRIVATE|)
  {
    TagsArePrivate(steps);
    var s := After(steps);
    var s1 := Apply(s, RegisterUser(id, name, f));
    var t := AfterFrom(s1, between);
    ApplyKeepsPrivateTags(s, RegisterUser(id, name, f));
    PrivateTagsStay(s1, between);
    OthersLeaveAccount(s1, id, between);
    if IsCreated(s.db, name, f) {
      assert Orphan(s1, id);
      OrphansStayOrphans(s1, id, between);
      if second.Makes? && id in t.pending { TenantStepOrphansIff(t, id, second.now, second.f); }
    }
  }

  /** A long name is enough: with no fault and nothing in between, on an empty database. */
  lemma LongNamesAreOrphaned(id: int, name: string, now: int)
    requires COLUMN_WIDTH - |PRIVATE| < |name| <= COLUMN_WIDTH
    ensures Orphan(Registered(INITIAL, id, name, NoFault, [], Makes(now, NoFault)), id)
  {
    RegistrationOrphansIff([], id, name, NoFault, [], Makes(now, NoFault));
  }

  /** And so is a lost reply of the first transaction, with any name that fits its column. */
  lemma LostRepliesOrphan(id: int, name: string, second: Second)
    requires |name| <= COLUMN_WIDTH
    ensures Orphan(Registered(INITIAL, id, name, FailAfter, [], second), id)
  {
    RegistrationOrphansIff([], id, name, FailAfter, [], second);
  }

  /** Memberships only accumulate; no step takes one away. */
  lemma MembershipsPersist(s: State, step: Step, user: int, tag: string)
    requires IsMember(s.db.members, user, tag)
    ensures IsMember(Apply(s, step).db.members, user, tag)
  {
    var k :| 0 <= k < |s.db.members| && s.db.members[k].user == user && s.db.members[k].tag == tag;
    assert Apply(s, step).db.members[k].user == user && Apply(s, step).db.members[k].tag == tag;
  }
}
