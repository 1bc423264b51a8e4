// Building blocks for concrete serial runs: registering a user, and uploading a file of one part.
module Scenario {
  import opened Prelude
  import KeyCodec
  import opened Upload
  import opened Interleaving
  import opened Serial
  import opened Retry
  import opened Resume
  import Tenancy

  const CALM := (k: nat) => IO(NoFault, 0, 0)

  function Naming(id: int): nat -> IO { (k: nat) => IO(NoFault, 0, id) }

  lemma OneMoreCall(limits: Limits, calls: seq<Call>, c: Call)
    ensures AfterCalls(limits, calls + [c]) == ApplyCall(AfterCalls(limits, calls), c)
  {
    assert (calls + [c])[..|calls|] == calls;
  }

  ghost function Two(w: World, a: Call, b: Call): World { ApplyCall(ApplyCall(w, a), b) }

  lemma TwoMoreCalls(limits: Limits, calls: seq<Call>, a: Call, b: Call)
    ensures AfterCalls(limits, calls + [a, b]) == Two(AfterCalls(limits, calls), a, b)
  {
    OneMoreCall(limits, calls, a);
    OneMoreCall(limits, calls + [a], b);
    assert calls + [a, b] == calls + [a] + [b];
  }

  // ---- a user ----

  function Registration(id: int, name: string): seq<Call> {
    [TenantChange(Tenancy.RegisterUser(id, name, NoFault)), TenantChange(Tenancy.RegisterTenant(id, 0, NoFault))]
  }

  function Registered(s: Tenancy.State, id: int, name: string): Tenancy.State {
    Tenancy.Apply(Tenancy.Apply(s, Tenancy.RegisterUser(id, name, NoFault)), Tenancy.RegisterTenant(id, 0, NoFault))
  }

  lemma UserRegisters(limits: Limits, calls: seq<Call>, id: int, name: string)
    ensures var w, w' := AfterCalls(limits, calls), AfterCalls(limits, calls + Registration(id, name));
      w' == w.(tenancy := Registered(w.tenancy, id, name))
  {
    TwoMoreCalls(limits, calls, TenantChange(Tenancy.RegisterUser(id, name, NoFault)),
                 TenantChange(Tenancy.RegisterTenant(id, 0, NoFault)));
  }

  const ANN_TAG := "PRIVATE_ann"

  function Ann(id: int): Tenancy.Membership { Tenancy.Membership(id, ANN_TAG, true) }

  lemma AnnIsFirst(limits: Limits, id: int)
    ensures var w := AfterCalls(limits, Registration(id, "ann"));
      && w.tenancy == Registered(Tenancy.INITIAL, id, "ann") && w.tenancy.db.members == [Ann(id)]
      && w == Empty(limits).w.(tenancy := w.tenancy)
  {
    UserRegisters(limits, [], id, "ann");
    assert [] + Registration(id, "ann") == Registration(id, "ann");
    assert Tenancy.PRIVATE + "ann" == ANN_TAG;
  }

  // ---- a file of one part ----

  function BeginOf(owner: int, md5: string, name: string, size: int): Request {
    Initiate(owner, md5, name, size, 1, "", false)
  }

  function BeginCall(owner: int, md5: string, name: string, size: int, id: int): Call {
    Make(BeginOf(owner, md5, name, size), Naming(id), 3)
  }

  function SendCall(owner: int, id: int, content: Bytes): Call {
    Make(UploadPart(owner, id, 0, 1, content), CALM, 3)
  }

  function CompleteCall(owner: int, id: int): Call {
    Make(Complete(owner, id, 1), CALM, 7)
  }

  function RowOf(owner: int, md5: string, name: string, size: int, tag: string): Row {
    Row(File(md5, owner, name, FileExt(name), tag, false), 0, size, false, None)
  }

  lemma BeginCreates(w: World, owner: int, md5: string, name: string, size: int, id: int, tag: string)
    requires Tenancy.PrimaryTag(w.tenancy.db.members, owner) == Some(tag) && |tag| <= 64
    requires Uploadable(w.limits, md5, name) && size <= w.limits.maxFileSize
    requires id !in w.rows && !Taken(w.rows, md5, owner)
    ensures ApplyCall(w, BeginCall(owner, md5, name, size, id)) ==
      w.(rows := w.rows[id := RowOf(owner, md5, name, size, tag)])
  {
    var req := BeginOf(owner, md5, name, size);
    assert forall k: nat :: Naming(id)(k) == IO(NoFault, 0, id);
    assert FindLive(w.rows, md5, owner).None?;
    InitiateCreates(w, req, Naming(id));
  }

  lemma SendArrives(w: World, id: int, content: Bytes)
    requires Uploading(w, id)
    ensures var w' := ApplyCall(w, SendCall(w.rows[id].file.owner, id, content));
      w' == WithPart(w, id, Part(0, content, CALM)) && Ready(w', id, 1) && FileOf(w', id, 1) == content
  {
    assert forall k: nat :: CALM(k) == IO(NoFault, 0, 0);
    CleanPart(w, id, 1, Part(0, content, CALM), 3);
    JoinedOne(WithPart(w, id, Part(0, content, CALM)).objects, w.rows[id].file.md5);
  }

  lemma JoinedOne(objects: map<string, Bytes>, md5: string)
    requires HasParts(objects, md5, 1)
    ensures Joined(objects, md5, 1) == objects[KeyCodec.PartKey(md5, 0)]
  {
    assert Joined(objects, md5, 0) == [];
  }

  /** One user registers, begins the upload of a file and sends its only part. */
  function OneReady(limits: Limits, md5: string, name: string, content: Bytes): seq<Call> {
    Registration(1, "ann") + [BeginCall(1, md5, name, limits.maxFileSize, 1), SendCall(1, 1, content)]
  }

  lemma OneIsReady(limits: Limits, md5: string, name: string, content: Bytes)
    requires Uploadable(limits, md5, name)
    ensures var w := AfterCalls(limits, OneReady(limits, md5, name, content));
      Ready(w, 1, 1) && w.rows[1].file.owner == 1 && w.log == []
  {
    AnnIsFirst(limits, 1);
    var w := AfterCalls(limits, Registration(1, "ann"));
    var begin := BeginCall(1, md5, name, limits.maxFileSize, 1);
    Tenancy.OnePrimaryIsThePrimaryTag(w.tenancy.db.members, 1, ANN_TAG);
    TwoMoreCalls(limits, Registration(1, "ann"), begin, SendCall(1, 1, content));
    BeginCreates(w, 1, md5, name, limits.maxFileSize, 1, ANN_TAG);
    SendArrives(ApplyCall(w, begin), 1, content);
  }
}
