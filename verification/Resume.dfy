// Resuming an upload: InitiateUpload reports which parts are there, the client sends what is
// missing, and CompleteUpload then succeeds.
module Resume {
  import opened Prelude
  import opened KeyCodec
  import opened Upload
  import opened Interleaving
  import opened Serial
  import opened Retry
  import Tenancy

  ghost predicate Uploading(w: World, id: int) {
    id in w.rows && w.rows[id].deletedAt.None? && !w.rows[id].merged
  }

  ghost function BitsFor(w: World, id: int): set<nat>
    requires id in w.rows
  {
    BitsOf(w.bits, w.rows[id].file.md5, w.rows[id].file.owner)
  }

  /** What one-owner runs guarantee of an uploading row: set bits have their parts. */
  ghost predicate Backed(w: World, id: int)
    requires id in w.rows
  {
    forall i: nat :: i in BitsFor(w, id) ==> PartKey(w.rows[id].file.md5, i) in w.objects
  }

  // ---- a failure-free InitiateUpload of an existing row ----

  ghost predicate Admissible(w: World, req: Request) {
    && req.Initiate? && req.size <= w.limits.maxFileSize && FileExt(req.name) in w.limits.allowedExts && req.total > 0
       && req.md5 != ""
    && (if req.tag == "" then Tenancy.PrimaryTag(w.tenancy.db.members, req.owner).Some?
        else Tenancy.IsMember(w.tenancy.db.members, req.owner, req.tag))
  }

  lemma {:induction false} ScanByInitiate(w: World, req: Request, id: int, io: nat -> IO, j: nat)
    requires Admissible(w, req) && id in w.rows && FindLive(w.rows, req.md5, req.owner) == Some(Doc(id, w.rows[id]))
    requires !w.rows[id].merged && j <= req.total && QuietUpTo(io, j + 2)
    ensures Run(w, req, io, j + 2) == (w, Proc(req,
      if j < req.total then Upload.Resume(id, j, SetBitsBelow(BitsFor(w, id), j))
      else Done(Initiated(id, false, SetBitsBelow(BitsFor(w, id), j)))))
  {
    if j == 0 {
      assert Run(w, req, io, 0) == (w, Proc(req, Start));
      assert Run(w, req, io, 1).0 == w && Run(w, req, io, 1).1.pc.Lookup?;
    } else {
      ScanByInitiate(w, req, id, io, j - 1);
      var p := Proc(req, Upload.Resume(id, j - 1, SetBitsBelow(BitsFor(w, id), j - 1)));
      assert Run(w, req, io, j + 2) == Advance(w, p, io(j + 1));
    }
  }

  /** The tenant of an admissible request. */
  ghost function TagOf(w: World, req: Request): string
    requires Admissible(w, req)
  {
    if req.tag == "" then Tenancy.PrimaryTag(w.tenancy.db.members, req.owner).value else req.tag
  }

  ghost function NewRow(w: World, req: Request, now: int): Row
    requires Admissible(w, req)
  {
    Row(File(req.md5, req.owner, req.name, FileExt(req.name), TagOf(w, req), req.public), now, req.size, false, None)
  }

  lemma InitiateLooksUp(w: World, req: Request, io: nat -> IO)
    requires Admissible(w, req) && Quiet(io)
    ensures Run(w, req, io, 1) == (w, Proc(req, Lookup(TagOf(w, req))))
  {
    assert Run(w, req, io, 0) == (w, Proc(req, Start));
  }

  lemma InitiateCreates(w: World, req: Request, io: nat -> IO)
    requires Admissible(w, req) && Quiet(io) && FindLive(w.rows, req.md5, req.owner).None?
    requires FitsColumns(NewRow(w, req, 0).file) && io(2).newId !in w.rows
    ensures Run(w, req, io, 3) ==
      if Taken(w.rows, req.md5, req.owner) then (w, Proc(req, Done(Failed(Conflict))))
      else (w.(rows := w.rows[io(2).newId := NewRow(w, req, io(2).now)]),
        Proc(req, Done(Initiated(io(2).newId, false, []))))
  {
    InitiateLooksUp(w, req, io);
    assert Run(w, req, io, 2) == (w, Proc(req, Insert(TagOf(w, req))));
    assert Run(w, req, io, 3) == Advance(w, Proc(req, Insert(TagOf(w, req))), io(2));
  }

  /** When does a failure-free, admissible InitiateUpload succeed? Exactly when the pair has not been
      soft-deleted: an existing row is resumed or hit, a new pair gets a row, a deleted one conflicts. */
  lemma InitiateSucceedsIff(w: World, req: Request, io: nat -> IO, k: nat)
    requires WorldOk(w) && Admissible(w, req) && Quiet(io) && k >= Bound(req)
    requires FitsColumns(NewRow(w, req, 0).file) && io(2).newId !in w.rows
    ensures Run(w, req, io, k).1.pc.Done?
    ensures Run(w, req, io, k).1.pc.reply.Initiated? <==>
      forall id :: id in w.rows && w.rows[id].file.md5 == req.md5 && w.rows[id].file.owner == req.owner ==>
        w.rows[id].deletedAt.None?
  {
    var found := FindLive(w.rows, req.md5, req.owner);
    InitiateLooksUp(w, req, io);
    if found.None? {
      InitiateCreates(w, req, io);
      DoneIsFinal(w, req, io, 3, k);
      if id :| id in w.rows && w.rows[id].file.md5 == req.md5 && w.rows[id].file.owner == req.owner {
        assert Taken(w.rows, req.md5, req.owner);
        assert !IsLive(w.rows, id, req.md5, req.owner);
      }
    } else if found.value.row.merged {
      assert Run(w, req, io, 2) == (w, Proc(req, Done(Initiated(found.value.id, true, []))));
      DoneIsFinal(w, req, io, 2, k);
    } else {
      ScanByInitiate(w, req, found.value.id, io, req.total);
      DoneIsFinal(w, req, io, req.total + 2, k);
    }
  }

  // ---- a failure-free UploadPart ----

  /** One part a client sends: its index, its bytes, and how the store calls go. */
  datatype Part = Part(index: nat, content: Bytes, io: nat -> IO)

  ghost function WithPart(w: World, id: int, part: Part): World
    requires id in w.rows
  {
    var f := w.rows[id].file;
    w.(objects := w.objects[PartKey(f.md5, part.index) := part.content],
      bits := WithBit(w.bits, f.md5, f.owner, part.index))
  }

  ghost function SendOf(w: World, id: int, n: nat, part: Part): Request
    requires id in w.rows
  {
    UploadPart(w.rows[id].file.owner, id, part.index, n, part.content)
  }

  lemma CleanPart(w: World, id: int, n: nat, part: Part, k: nat)
    requires Uploading(w, id) && Quiet(part.io) && part.index < n && k >= 3
    ensures Run(w, SendOf(w, id, n, part), part.io, k) ==
      (WithPart(w, id, part), Proc(SendOf(w, id, n, part), Done(Uploaded)))
  {
    var req := SendOf(w, id, n, part);
    var doc := Doc(id, w.rows[id]);
    assert Run(w, req, part.io, 0) == (w, Proc(req, Start));
    assert Run(w, req, part.io, 1) == (w, Proc(req, Put(doc)));
    assert Run(w, req, part.io, 2).1 == Proc(req, Mark(doc));
    assert Run(w, req, part.io, 3) == (WithPart(w, id, part), Proc(req, Done(Uploaded)));
    DoneIsFinal(w, req, part.io, 3, k);
  }

  ghost function Missing(w: World, id: int, n: nat): set<nat>
    requires id in w.rows
  {
    set i: nat | i < n && i !in BitsFor(w, id)
  }

  /** Sending a part removes its index, and nothing else, from the missing ones. */
  lemma PartMakesProgress(w: World, id: int, n: nat, part: Part)
    requires Uploading(w, id) && part.index < n
    ensures var w' := WithPart(w, id, part);
      && Missing(w', id, n) == Missing(w, id, n) - {part.index}
      && (part.index in Missing(w, id, n) ==> |Missing(w', id, n)| < |Missing(w, id, n)|)
  {
    var w' := WithPart(w, id, part);
    assert BitsFor(w', id) == BitsFor(w, id) + {part.index};
    assert Missing(w', id, n) == Missing(w, id, n) - {part.index};
  }

  // ---- a client session ----

  ghost function AfterParts(w: World, id: int, n: nat, parts: seq<Part>): World
    requires id in w.rows
    ensures parts == [] ==> AfterParts(w, id, n, parts) == w
  {
    if parts == [] then w
    else
      var front, last := parts[..|parts| - 1], parts[|parts| - 1];
      Run(AfterParts(w, id, n, front), SendOf(w, id, n, last), last.io, 3).0
  }

  ghost predicate Sent(parts: seq<Part>, i: nat) {
    exists k :: 0 <= k < |parts| && parts[k].index == i
  }

  ghost predicate GoodParts(parts: seq<Part>, n: nat) {
    forall k :: 0 <= k < |parts| ==> parts[k].index < n && Quiet(parts[k].io)
  }

  lemma {:induction false} PartsArrive(w: World, id: int, n: nat, parts: seq<Part>)
    requires Uploading(w, id) && Backed(w, id) && GoodParts(parts, n)
    ensures var w' := AfterParts(w, id, n, parts);
      && w'.rows == w.rows && Backed(w', id) && w'.log == w.log
      && forall i: nat :: i in BitsFor(w', id) <==> i in BitsFor(w, id) || Sent(parts, i)
  {
    if parts != [] {
      var front, last := parts[..|parts| - 1], parts[|parts| - 1];
      PartsArrive(w, id, n, front);
      var v := AfterParts(w, id, n, front);
      CleanPart(v, id, n, last, 3);
      var w' := WithPart(v, id, last);
      assert BitsFor(w', id) == BitsFor(v, id) + {last.index};
      assert forall i: nat :: Sent(parts, i) <==> Sent(front, i) || i == last.index by {
        forall i: nat ensures Sent(parts, i) <==> Sent(front, i) || i == last.index {
          assert parts[|parts| - 1].index == last.index;
          if Sent(front, i) { var k :| 0 <= k < |front| && front[k].index == i; assert parts[k].index == i; }
          if Sent(parts, i) {
            var k :| 0 <= k < |parts| && parts[k].index == i;
            assert k < |front| ==> front[k].index == i;
          }
        }
      }
    }
  }

  // ---- a failure-free CompleteUpload ----

  lemma {:induction false} ScanByComplete(w: World, id: int, n: nat, io: nat -> IO, j: nat)
    requires Uploading(w, id) && j <= n && QuietUpTo(io, j + 1)
    ensures var req := Complete(w.rows[id].file.owner, id, n);
      Run(w, req, io, j + 1) == (w, Proc(req, AfterCheck(Doc(id, w.rows[id]), n, j, SetBitsBelow(BitsFor(w, id), j))))
  {
    var req := Complete(w.rows[id].file.owner, id, n);
    if j == 0 {
      assert Run(w, req, io, 0) == (w, Proc(req, Start));
    } else {
      ScanByComplete(w, id, n, io, j - 1);
      var p := Proc(req, Check(Doc(id, w.rows[id]), j - 1, SetBitsBelow(BitsFor(w, id), j - 1)));
      assert Run(w, req, io, j + 1) == Advance(w, p, io(j));
    }
  }

  /** All bits are set and some part is gone: the compose call is refused. */
  lemma SourceIsMissing(w: World, id: int, n: nat, io: nat -> IO)
    requires Uploading(w, id) && n > 0 && Missing(w, id, n) == {} && QuietUpTo(io, n + 2)
    requires !HasParts(w.objects, w.rows[id].file.md5, n)
    ensures var req := Complete(w.rows[id].file.owner, id, n);
      Run(w, req, io, n + 2) == (w, Proc(req, Done(Failed(SourceMissing))))
  {
    var req, doc := Complete(w.rows[id].file.owner, id, n), Doc(id, w.rows[id]);
    forall i: nat | i < n ensures i in BitsFor(w, id) { assert i !in Missing(w, id, n); }
    ScanIsExact(BitsFor(w, id), n);
    ScanByComplete(w, id, n, io, n);
    assert Run(w, req, io, n + 2) == Advance(w, Proc(req, Compose(doc)), io(n + 1));
  }

  /** The outcome of a failure-free CompleteUpload of any uploading row: incomplete exactly if a bit
      is missing; refused for want of a source exactly if no bit is missing and a part is; otherwise
      it merges. Only the last changes anything. */
  lemma CleanComplete(w: World, id: int, n: nat, io: nat -> IO, k: nat)
    requires Uploading(w, id) && n > 0 && Quiet(io) && k >= Bound(Complete(w.rows[id].file.owner, id, n))
    ensures var (w', p') := Run(w, Complete(w.rows[id].file.owner, id, n), io, k);
      if Missing(w, id, n) != {} then p'.pc == Done(Failed(PartsIncomplete)) && w' == w
      else if !HasParts(w.objects, w.rows[id].file.md5, n) then p'.pc == Done(Failed(SourceMissing)) && w' == w
      else Ready(w, id, n) && p'.pc == Done(Completed(MergedDoc(w, id, n))) && AfterMerge(w, w', id, n)
  {
    var req := Complete(w.rows[id].file.owner, id, n);
    if Missing(w, id, n) != {} {
      BitIsMissing(w, id, n, io);
      DoneIsFinal(w, req, io, n + 1, k);
    } else if !HasParts(w.objects, w.rows[id].file.md5, n) {
      SourceIsMissing(w, id, n, io);
      DoneIsFinal(w, req, io, n + 2, k);
    } else {
      forall i: nat | i < n ensures i in BitsFor(w, id) { assert i !in Missing(w, id, n); }
      CleanTrySucceeds(w, w, id, n, io, k);
    }
  }

  lemma BitIsMissing(w: World, id: int, n: nat, io: nat -> IO)
    requires Uploading(w, id) && Missing(w, id, n) != {} && QuietUpTo(io, n + 1)
    ensures var req := Complete(w.rows[id].file.owner, id, n);
      Run(w, req, io, n + 1) == (w, Proc(req, Done(Failed(PartsIncomplete))))
  {
    var i :| i in Missing(w, id, n);
    ScanIsExact(BitsFor(w, id), n);
    ScanByComplete(w, id, n, io, n);
  }

  /** Resume converges. From any uploading row whose set bits are backed: InitiateUpload reports
      exactly the set bits below n; after the client has sent any parts, in any order and with
      repeats, CompleteUpload succeeds if and only if every index that was not reported has been
      sent; and then the merged object is the parts in order. */
  lemma ResumeConverges(w: World, req: Request, id: int, n: nat, ioI: nat -> IO, parts: seq<Part>, ioC: nat -> IO,
      k: nat)
    requires WorldOk(w) && Uploading(w, id) && Backed(w, id)
    requires Admissible(w, req) && IsInitiateFor(req, w.rows[id].file.md5, w.rows[id].file.owner) && req.total == n
      && Quiet(ioI)
    requires GoodParts(parts, n) && Quiet(ioC) && k >= Bound(Complete(w.rows[id].file.owner, id, n))
    ensures Run(w, req, ioI, n + 2).0 == w && Run(w, req, ioI, n + 2).1.pc.Done?
    ensures Run(w, req, ioI, n + 2).1.pc.reply.Initiated?
    ensures var reported := Run(w, req, ioI, n + 2).1.pc.reply.uploaded;
      var v := AfterParts(w, id, n, parts);
      var (w', p') := Run(v, Complete(w.rows[id].file.owner, id, n), ioC, k);
      && Increasing(reported, n) && (forall i: nat :: i in reported <==> i < n && i in BitsFor(w, id))
      && (if forall i: nat :: i < n ==> i in reported || Sent(parts, i)
          then Ready(v, id, n) && p'.pc == Done(Completed(MergedDoc(v, id, n))) && AfterMerge(v, w', id, n)
          else p'.pc == Done(Failed(PartsIncomplete)) && w' == v)
  {
    assert IsLive(w.rows, id, req.md5, req.owner);
    ScanByInitiate(w, req, id, ioI, n);
    ScanIsExact(BitsFor(w, id), n);
    var reported := Run(w, req, ioI, n + 2).1.pc.reply.uploaded;
    PartsArrive(w, id, n, parts);
    var v := AfterParts(w, id, n, parts);
    CleanComplete(v, id, n, ioC, k);
    if forall i: nat :: i < n ==> i in reported || Sent(parts, i) {
      forall i: nat | i < n ensures i !in Missing(v, id, n) { assert i in reported || Sent(parts, i); }
      assert Missing(v, id, n) == {};
      forall i: nat | i < n ensures PartKey(v.rows[id].file.md5, i) in v.objects { assert i in BitsFor(v, id); }
    } else {
      var i: nat :| i < n && !(i in reported || Sent(parts, i));
      assert i in Missing(v, id, n);
    }
  }
}
