// Two owners of the same bytes share their part objects, but not their progress bitmaps.
module Sharing {
  import opened Prelude
  import opened KeyCodec
  import opened Upload
  import opened Interleaving
  import opened Serial
  import opened Retry
  import opened Resume
  import opened Scenario
  import Progress
  import Counting
  import Tenancy

  /** Progress soundness where one owner is alone with an md5: in every reachable state of the
      interleaved system, each set bit of an uploading row has its part, so Resume.dfy applies. */
  lemma OneOwnerIsBacked(limits: Limits, steps: seq<Step>, id: int)
    requires Uploading(After(limits, steps).w, id)
    requires !Progress.OtherOwnerMerged(After(limits, steps).w.rows, id)
    ensures WorldOk(After(limits, steps).w) && Backed(After(limits, steps).w, id)
  {
    AlwaysOk(limits, steps);
    var w := After(limits, steps).w;
    forall i: nat | i in BitsFor(w, id) ensures PartKey(w.rows[id].file.md5, i) in w.objects {
      Progress.SetBitMeansStoredPart(limits, steps, id, i);
    }
  }

  /** What the completion of one owner does to the other one's upload. */
  lemma MergeTakesSharedParts(w: World, id1: int, id2: int, n: nat, io: nat -> IO, k: nat)
    requires WorldOk(w) && Ready(w, id1, n) && Ready(w, id2, n) && id1 != id2
      && w.rows[id1].file.md5 == w.rows[id2].file.md5
    requires Quiet(io) && k >= Bound(TryOf(w, id1, n))
    ensures var (w', p') := Run(w, TryOf(w, id1, n), io, k);
      && p'.pc == Done(Completed(MergedDoc(w, id1, n))) && w'.rows == w.rows[id1 := MergedDoc(w, id1, n).row]
      && BitsFor(w', id2) == BitsFor(w, id2)
         && (forall i: nat :: i < n ==> PartKey(w.rows[id2].file.md5, i) !in w'.objects)
      && w'.limits == w.limits && w'.tenancy == w.tenancy
  {
    CleanTrySucceeds(w, w, id1, n, io, k);
    var f1, f2 := w.rows[id1].file, w.rows[id2].file;
    if ProgressKey(f1.md5, f1.owner) == ProgressKey(f2.md5, f2.owner) {
      ProgressKeyInjective(f1.md5, f1.owner, f2.md5, f2.owner);
    }
  }

  /** The hypothesis is needed. Let two owners have sent all parts of the same md5. When one of them
      completes, the other is told on InitiateUpload that every part is there, and CompleteUpload
      fails for want of a source, on a row that is still uploading. */
  lemma MergeStrandsOtherOwner(w: World, id1: int, id2: int, n: nat, io: nat -> IO, k: nat, req: Request,
      ioI: nat -> IO, ioC: nat -> IO)
    requires WorldOk(w) && Ready(w, id1, n) && Ready(w, id2, n) && id1 != id2
      && w.rows[id1].file.md5 == w.rows[id2].file.md5
    requires Quiet(io) && k >= Bound(TryOf(w, id1, n)) && Quiet(ioI) && Quiet(ioC)
    requires Admissible(w, req) && IsInitiateFor(req, w.rows[id2].file.md5, w.rows[id2].file.owner) && req.total == n
    ensures var w' := Run(w, TryOf(w, id1, n), io, k).0;
      && Uploading(w', id2) && Missing(w', id2, n) == {}
      && Run(w', req, ioI, n + 2) == (w', Proc(req, Done(Initiated(id2, false, SetBitsBelow(BitsFor(w', id2), n)))))
      && Run(w', TryOf(w, id2, n), ioC, n + 2) == (w', Proc(TryOf(w, id2, n), Done(Failed(SourceMissing))))
  {
    MergeTakesSharedParts(w, id1, id2, n, io, k);
    RunKeepsOk(w, TryOf(w, id1, n), io, k);
    var w' := Run(w, TryOf(w, id1, n), io, k).0;
    Stranded(w', id2, n, req, ioI, ioC);
  }

  lemma Stranded(w: World, id: int, n: nat, req: Request, ioI: nat -> IO, ioC: nat -> IO)
    requires WorldOk(w) && Uploading(w, id) && n > 0 && Quiet(ioI) && Quiet(ioC)
    requires (forall i: nat :: i < n ==> i in BitsFor(w, id)) && PartKey(w.rows[id].file.md5, 0) !in w.objects
    requires Admissible(w, req) && IsInitiateFor(req, w.rows[id].file.md5, w.rows[id].file.owner) && req.total == n
    ensures Missing(w, id, n) == {}
    ensures Run(w, req, ioI, n + 2) == (w, Proc(req, Done(Initiated(id, false, SetBitsBelow(BitsFor(w, id), n)))))
    ensures var c := Complete(w.rows[id].file.owner, id, n);
      Run(w, c, ioC, n + 2) == (w, Proc(c, Done(Failed(SourceMissing))))
  {
    assert IsLive(w.rows, id, req.md5, req.owner);
    ScanByInitiate(w, req, id, ioI, n);
    SourceIsMissing(w, id, n, ioC);
  }

  /** Exactly when a reachable upload is stranded. Let all bits of an uploading row be set: a
      failure-free CompleteUpload fails if and only if some part is gone, always for want of a source,
      and a part can only be gone because another owner's upload of the same md5 was merged. */
  lemma StrandedIff(limits: Limits, steps: seq<Step>, id: int, n: nat, io: nat -> IO, k: nat)
    requires Uploading(After(limits, steps).w, id) && n > 0 && Missing(After(limits, steps).w, id, n) == {}
    requires Quiet(io) && k >= Bound(Complete(After(limits, steps).w.rows[id].file.owner, id, n))
    ensures var w := After(limits, steps).w;
      var reply := Run(w, Complete(w.rows[id].file.owner, id, n), io, k).1.pc;
      && (reply == Done(Failed(SourceMissing)) <==> !HasParts(w.objects, w.rows[id].file.md5, n))
      && (reply != Done(Failed(SourceMissing)) ==> reply.Done? && reply.reply.Completed?)
      && (reply == Done(Failed(SourceMissing)) ==> Progress.OtherOwnerMerged(w.rows, id))
  {
    var w := After(limits, steps).w;
    CleanComplete(w, id, n, io, k);
    if !HasParts(w.objects, w.rows[id].file.md5, n) {
      var i: nat :| i < n && PartKey(w.rows[id].file.md5, i) !in w.objects;
      assert i !in Missing(w, id, n);
      Progress.SetBitMeansStoredPart(limits, steps, id, i);
    }
  }

  // ---- a run in which this happens, for any file and any two users ----

  /** Two users, and what they both upload: the size is what they declare, document ids are 1 and 2. */
  datatype Case = Case(a: int, b: int, md5: string, name: string, size: int)

  predicate IsCase(limits: Limits, c: Case) {
    c.a != c.b && Uploadable(limits, c.md5, c.name) && c.size <= limits.maxFileSize
  }

  const BOB_TAG := "PRIVATE_bob"

  function Bob(id: int): Tenancy.Membership { Tenancy.Membership(id, BOB_TAG, true) }

  function BeginA(c: Case): Call { BeginCall(c.a, c.md5, c.name, c.size, 1) }

  function BeginB(c: Case): Call { BeginCall(c.b, c.md5, c.name, c.size, 2) }

  function Resuming(c: Case): Request { BeginOf(c.b, c.md5, c.name, c.size) }

  function TwoUsers(c: Case): seq<Call> { Registration(c.a, "ann") + Registration(c.b, "bob") }

  /** Two users register, each begins an upload of the same file and sends its only part. */
  function TwoUploads(c: Case): seq<Call> {
    TwoUsers(c) + [BeginA(c), BeginB(c)] + [SendCall(c.a, 1, [7]), SendCall(c.b, 2, [7])]
  }

  lemma TwoUsersRegister(limits: Limits, c: Case)
    requires c.a != c.b
    ensures var w := AfterCalls(limits, TwoUsers(c));
      w.tenancy.db.members == [Ann(c.a), Bob(c.b)] && w == Empty(limits).w.(tenancy := w.tenancy)
  {
    AnnIsFirst(limits, c.a);
    UserRegisters(limits, Registration(c.a, "ann"), c.b, "bob");
    BobIsSecond(c.a, c.b);
  }

  lemma BobIsSecond(a: int, b: int)
    requires a != b && Registered(Tenancy.INITIAL, a, "ann").db.members == [Ann(a)]
    ensures Registered(Registered(Tenancy.INITIAL, a, "ann"), b, "bob").db.members == [Ann(a), Bob(b)]
  {
    assert Tenancy.PRIVATE + "ann" == ANN_TAG && Tenancy.PRIVATE + "bob" == BOB_TAG;
    assert Tenancy.ClearPrimary([Ann(a)], b) == [Ann(a)];
  }

  /** Documents 1 and 2, and no others, are uploads of the same file by the two users. */
  predicate BothThere(w: World, c: Case) {
    && w.rows.Keys == {1, 2} && w.rows[1].file.md5 == w.rows[2].file.md5 == c.md5
    && w.rows[1].file.owner == c.a && w.rows[2].file.owner == c.b
  }

  lemma BothBegin(w: World, c: Case)
    requires w.tenancy.db.members == [Ann(c.a), Bob(c.b)] && w.rows == map[] && IsCase(w.limits, c)
    ensures var w' := Two(w, BeginA(c), BeginB(c));
      && w' == w.(rows := w'.rows) && BothThere(w', c)
      && Uploading(w', 1) && Uploading(w', 2) && Admissible(w', Resuming(c))
  {
    Tenancy.OnePrimaryIsThePrimaryTag(w.tenancy.db.members, c.a, ANN_TAG);
    Tenancy.OnePrimaryIsThePrimaryTag(w.tenancy.db.members, c.b, BOB_TAG);
    BeginCreates(w, c.a, c.md5, c.name, c.size, 1, ANN_TAG);
    BeginCreates(ApplyCall(w, BeginA(c)), c.b, c.md5, c.name, c.size, 2, BOB_TAG);
  }

  /** Sending one's own part does not make another owner's upload less ready. */
  lemma SendKeepsReady(w: World, id: int, other: int)
    requires Uploading(w, id) && other in w.rows && Ready(w, other, 1)
    requires w.rows[other].file.owner != w.rows[id].file.owner
    ensures Ready(WithPart(w, id, Part(0, [7], CALM)), other, 1)
  {
    var f, g := w.rows[other].file, w.rows[id].file;
    if ProgressKey(f.md5, f.owner) == ProgressKey(g.md5, g.owner) {
      ProgressKeyInjective(f.md5, f.owner, g.md5, g.owner);
    }
    assert BitsOf(WithPart(w, id, Part(0, [7], CALM)).bits, f.md5, f.owner) == BitsOf(w.bits, f.md5, f.owner);
  }

  /** Both uploads are complete but for the merge. */
  ghost predicate BothReady(w: World, c: Case) {
    WorldOk(w) && BothThere(w, c) && Ready(w, 1, 1) && Ready(w, 2, 1) && Admissible(w, Resuming(c))
  }

  lemma BothSend(w: World, c: Case)
    requires c.a != c.b && BothThere(w, c) && Uploading(w, 1) && Uploading(w, 2) && Admissible(w, Resuming(c))
    ensures var w' := Two(w, SendCall(c.a, 1, [7]), SendCall(c.b, 2, [7]));
      WorldOk(w') ==> BothReady(w', c)
  {
    SendArrives(w, 1, [7]);
    var v := ApplyCall(w, SendCall(c.a, 1, [7]));
    SendArrives(v, 2, [7]);
    SendKeepsReady(v, 2, 1);
  }

  /** The run exists. By SerialRunsAreRuns its end is a reachable state of the interleaved system. */
  lemma TwoOwnersAreReachable(limits: Limits, c: Case)
    requires IsCase(limits, c)
    ensures BothReady(AfterCalls(limits, TwoUploads(c)), c)
  {
    TwoUsersRegister(limits, c);
    TwoMoreCalls(limits, TwoUsers(c), BeginA(c), BeginB(c));
    BothBegin(AfterCalls(limits, TwoUsers(c)), c);
    var calls := TwoUsers(c) + [BeginA(c), BeginB(c)];
    TwoMoreCalls(limits, calls, SendCall(c.a, 1, [7]), SendCall(c.b, 2, [7]));
    BothSend(AfterCalls(limits, calls), c);
    Counting.AtMostOneIngest(limits, TwoUploads(c), 1);
  }

  lemma OneBitScan(w: World, id: int)
    requires id in w.rows && Missing(w, id, 1) == {}
    ensures SetBitsBelow(BitsFor(w, id), 1) == [0]
  {
    assert 0 !in Missing(w, id, 1);
    assert SetBitsBelow(BitsFor(w, id), 0) == [];
  }

  /** n and k are 1 and 7; as variables they keep the runs from being unfolded. */
  lemma BothReadyStrands(w: World, c: Case, n: nat, k: nat)
    requires BothReady(w, c) && n == 1 && k == 7
    ensures var w' := Run(w, Complete(c.a, 1, n), CALM, k).0;
      && BothThere(w', c) && Uploading(w', 2) && IsStranded(w', 2)
      && Run(w', Resuming(c), CALM, n + 2) == (w', Proc(Resuming(c), Done(Initiated(2, false, [0]))))
      && Run(w', Complete(c.b, 2, n), CALM, n + 2) == (w', Proc(Complete(c.b, 2, n), Done(Failed(SourceMissing))))
  {
    assert forall j: nat :: CALM(j) == IO(NoFault, 0, 0);
    MergeStrandsOtherOwner(w, 1, 2, n, CALM, k, Resuming(c), CALM, CALM);
    MergeTakesSharedParts(w, 1, 2, n, CALM, k);
    var w' := Run(w, Complete(c.a, 1, n), CALM, k).0;
    OneBitScan(w', 2);
    assert !HasParts(w'.objects, c.md5, n);
  }

  /** So there is a run without a single fault, expiry or deletion after which a user, told by
      InitiateUpload that every part has arrived, cannot complete the upload. */
  lemma StrandingRun(limits: Limits, c: Case)
    requires IsCase(limits, c)
    ensures var w := AfterCalls(limits, TwoUploads(c) + [CompleteCall(c.a, 1)]);
      && BothThere(w, c) && Uploading(w, 2) && IsStranded(w, 2)
      && Run(w, Resuming(c), CALM, 3) == (w, Proc(Resuming(c), Done(Initiated(2, false, [0]))))
      && Run(w, Complete(c.b, 2, 1), CALM, 3) == (w, Proc(Complete(c.b, 2, 1), Done(Failed(SourceMissing))))
  {
    TwoOwnersAreReachable(limits, c);
    BothReadyStrands(AfterCalls(limits, TwoUploads(c)), c, 1, 7);
    OneMoreCall(limits, TwoUploads(c), CompleteCall(c.a, 1));
  }

  // ---- who may upload an md5 ----

  /** For some number of parts, all bits are set and a part is gone. */
  ghost predicate IsStranded(w: World, id: int) {
    Uploading(w, id) && exists n: nat ::
      n > 0 && Missing(w, id, n) == {} && !HasParts(w.objects, w.rows[id].file.md5, n)
  }

  ghost predicate OwnersAmong(rows: map<int, Row>, md5: string, owners: set<int>) {
    forall id :: id in rows && rows[id].file.md5 == md5 ==> rows[id].file.owner in owners
  }

  ghost predicate IsUploadAmong(w: World, id: int, md5: string, owners: set<int>) {
    OwnersAmong(w.rows, md5, owners) && id in w.rows && w.rows[id].file.md5 == md5
  }

  /** In no run in which only these users upload the md5 is one of its uploads stranded. */
  ghost predicate NeverStranded(limits: Limits, md5: string, owners: set<int>) {
    forall steps, id :: IsUploadAmong(After(limits, steps).w, id, md5, owners) ==>
      !IsStranded(After(limits, steps).w, id)
  }

  /** For every file that can be uploaded at all: its uploads are never stranded if and only if at most
      one user uploads it. */
  lemma NeverStrandedIff(limits: Limits, md5: string, name: string, owners: set<int>)
    requires Uploadable(limits, md5, name)
    ensures NeverStranded(limits, md5, owners) <==> forall a, b :: a in owners && b in owners ==> a == b
  {
    if a, b :| a in owners && b in owners && a != b {
      var c := Case(a, b, md5, name, limits.maxFileSize);
      StrandingRun(limits, c);
      var steps := SerialRunsAreRuns(limits, TwoUploads(c) + [CompleteCall(a, 1)]);
      assert IsUploadAmong(After(limits, steps).w, 2, md5, owners);
    } else {
      forall steps, id | IsUploadAmong(After(limits, steps).w, id, md5, owners)
        ensures !IsStranded(After(limits, steps).w, id)
      {
        OneOwnerIsNotStranded(limits, steps, id, owners);
      }
    }
  }

  lemma OneOwnerIsNotStranded(limits: Limits, steps: seq<Step>, id: int, owners: set<int>)
    requires id in After(limits, steps).w.rows && forall a, b :: a in owners && b in owners ==> a == b
    requires OwnersAmong(After(limits, steps).w.rows, After(limits, steps).w.rows[id].file.md5, owners)
    ensures !IsStranded(After(limits, steps).w, id)
  {
    var w := After(limits, steps).w;
    if IsStranded(w, id) {
      var n: nat :| n > 0 && Missing(w, id, n) == {} && !HasParts(w.objects, w.rows[id].file.md5, n);
      var i: nat :| i < n && PartKey(w.rows[id].file.md5, i) !in w.objects;
      assert i !in Missing(w, id, n);
      Progress.SetBitMeansStoredPart(limits, steps, id, i);
      assert false;
    }
  }
}
