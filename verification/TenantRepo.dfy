// The user and tenant repositories of internal/infra/mysql/user_repo.go over one database. A
// transaction works on copies and publishes them only when it commits.
module TenantRepo {
  import opened Prelude
  import opened Tenancy

  /** A tenant as ListByUser returns it. */
  datatype Entry = Entry(tag: string, tenant: Tenant, primary: bool)

  class Database {
    var users: map<int, string>
    var tenants: map<string, Tenant>
    var members: seq<Membership>

    ghost function View(): Db
      reads this
    {
      Db(users, tenants, members)
    }

    constructor ()
      ensures View() == Tenancy.INITIAL.db
    {
      users, tenants, members := map[], map[], [];
    }

    method CreateUser(id: int, name: string, f: Fault) returns (err: Option<Error>)
      modifies this
      ensures (View(), err) == Tenancy.CreateUser(old(View()), id, name, f)
    {
      if f.FailBefore? || |name| > COLUMN_WIDTH { return Some(StoreFault); }
      if id in users || name in users.Values { return Some(Conflict); }
      users := users[id := name];
      err := if f.Reported() then None else Some(StoreFault);
    }

    /** Whichever statement or commit fails, the outcome is that of one atomic step; io(3) is the
        commit, and without faults the step has none. */
    method CreateWithMembership(tag: string, tenant: Tenant, isPrimary: bool, io: nat -> Fault)
      returns (err: Option<Error>)
      modifies this
      ensures exists f :: (View(), err) == CreateTenant(old(View()), tag, tenant, isPrimary, f)
      ensures (forall k :: io(k).NoFault?) ==>
        (View(), err) == CreateTenant(old(View()), tag, tenant, isPrimary, NoFault)
    {
      ghost var start := View();
      assert CreateTenant(start, tag, tenant, isPrimary, FailBefore) == (start, Some(StoreFault));
      if !io(0).NoFault? || !FitsTenants(tag, tenant) { return Some(StoreFault); }
      if tag in tenants {
        assert CreateTenant(start, tag, tenant, isPrimary, NoFault) == (start, Some(Conflict));
        return Some(Conflict);
      }
      var txTenants, txMembers := tenants[tag := tenant], members;
      if isPrimary {
        if !io(1).NoFault? { return Some(StoreFault); }
        txMembers := ClearPrimary(txMembers, tenant.creator);
      }
      if !io(2).NoFault? { return Some(StoreFault); }
      assert IsMember(txMembers, tenant.creator, tag) <==> IsMember(members, tenant.creator, tag);
      if IsMember(txMembers, tenant.creator, tag) {
        assert CreateTenant(start, tag, tenant, isPrimary, NoFault) == (start, Some(Conflict));
        return Some(Conflict);
      }
      txMembers := txMembers + [Membership(tenant.creator, tag, isPrimary)];
      if io(3).FailBefore? { return Some(StoreFault); }
      tenants, members := txTenants, txMembers;
      err := if io(3).Reported() then None else Some(StoreFault);
      assert (View(), err) == CreateTenant(start, tag, tenant, isPrimary, io(3));
    }

    method SetPrimary(user: int, tag: string, io: nat -> Fault) returns (err: Option<Error>)
      modifies this
      ensures exists f :: (View(), err) == Tenancy.SetPrimary(old(View()), user, tag, f)
      ensures (forall k :: io(k).NoFault?) ==> (View(), err) == Tenancy.SetPrimary(old(View()), user, tag, NoFault)
    {
      ghost var start := View();
      assert Tenancy.SetPrimary(start, user, tag, FailBefore) == (start, Some(StoreFault));
      if !io(0).NoFault? { return Some(StoreFault); }
      if !IsMember(members, user, tag) {
        assert Tenancy.SetPrimary(start, user, tag, NoFault) == (start, Some(NotFound));
        return Some(NotFound);
      }
      if !io(1).NoFault? { return Some(StoreFault); }
      var tx := ClearPrimary(members, user);
      if !io(2).NoFault? { return Some(StoreFault); }
      tx := RaisePrimary(tx, user, tag);
      if io(3).FailBefore? { return Some(StoreFault); }
      members := tx;
      err := if io(3).Reported() then None else Some(StoreFault);
      assert (View(), err) == Tenancy.SetPrimary(start, user, tag, io(3));
    }

    method GetPrimaryTag(user: int, f: Fault) returns (tag: string, err: Option<Error>)
      ensures err.None? <==> f.Reported() && PrimaryTag(members, user).Some?
      ensures err.None? ==> PrimaryTag(members, user) == Some(tag)
      ensures err.Some? ==> err == Some(if f.Reported() then NotFound else StoreFault)
    {
      tag := "";
      if !f.Reported() { return "", Some(StoreFault); }
      var found := PrimaryTag(members, user);
      if found.None? { return "", Some(NotFound); }
      return found.value, None;
    }

    method IsMemberOf(user: int, tag: string, f: Fault) returns (ok: bool, err: Option<Error>)
      ensures err.None? <==> f.Reported()
      ensures err.None? ==> (ok <==> IsMember(members, user, tag))
      ensures err.Some? ==> err == Some(StoreFault)
    {
      if !f.Reported() { return false, Some(StoreFault); }
      return IsMember(members, user, tag), None;
    }

    /** answer is what the database delivers for the ordered join; each row becomes one entry. */
    method ListTenants(user: int, answer: seq<Membership>, f: Fault) returns (list: seq<Entry>, err: Option<Error>)
      requires IsTenantListing(View(), user, answer)
      ensures err == if f.Reported() then None else Some(StoreFault)
      ensures err.None? ==> |list| == |answer| && forall k :: 0 <= k < |list| ==>
        answer[k].tag in tenants && list[k] == Entry(answer[k].tag, tenants[answer[k].tag], answer[k].primary)
    {
      list := [];
      if !f.Reported() { return [], Some(StoreFault); }
      for i := 0 to |answer|
        invariant |list| == i
        invariant forall k :: 0 <= k < i ==>
          answer[k].tag in tenants && list[k] == Entry(answer[k].tag, tenants[answer[k].tag], answer[k].primary)
      {
        assert answer[i] in answer && Joined(View(), user, answer[i]);
        list := list + [Entry(answer[i].tag, tenants[answer[i].tag], answer[i].primary)];
      }
      err := None;
    }
  }
}
