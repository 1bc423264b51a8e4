// The use cases of internal/service/document/document.go, statement by statement over the four
// stores. Each is proved to make exactly the store calls of the step machine in Upload.dfy, so the
// results about runs of that machine are results about these methods.
module DocumentService {
  import opened Prelude
  import KeyCodec
  import opened Upload
  import opened Serial
  import opened Retry
  import opened Stores
  import opened Listing
  import Tenancy
  import TenantRepo

  /** The scan of an InitiateUpload, up to its j-th call or to the one after, which failed. */
  lemma {:induction false} ResumeCalls(run: nat -> (World, Proc), req: Request, io: nat -> IO, w: World, id: int,
      j: nat)
    requires Follows(run, CallsOf(io)) && req.Initiate? && j <= req.total && req.total > 0
    requires run(2) == (w, Proc(req, PC.Resume(id, 0, []))) && AllReported(io, 2, 2 + j)
    ensures var found := SetBitsBelow(BitsOf(w.bits, req.md5, req.owner), j);
      run(2 + j) == (w, Proc(req, if j < req.total then PC.Resume(id, j, found) else Done(Initiated(id, false, found))))
  {
    if j > 0 {
      ResumeCalls(run, req, io, w, id, j - 1);
      StepInitiate(run, req, io, 2 + (j - 1), w,
        PC.Resume(id, j - 1, SetBitsBelow(BitsOf(w.bits, req.md5, req.owner), j - 1)));
    }
  }

  /** The scan of a CompleteUpload, likewise. */
  lemma {:induction false} CheckCalls(run: nat -> (World, Proc), req: Request, io: nat -> IO, w: World, doc: Doc,
      j: nat)
    requires Follows(run, CallsOf(io)) && req.Complete? && j <= req.total
    requires run(1) == (w, Proc(req, AfterCheck(doc, req.total, 0, []))) && AllReported(io, 1, 1 + j)
    ensures run(1 + j) ==
      (w, Proc(req, AfterCheck(doc, req.total, j, SetBitsBelow(BitsOf(w.bits, doc.row.file.md5, req.owner), j))))
  {
    if j > 0 {
      CheckCalls(run, req, io, w, doc, j - 1);
      var found := SetBitsBelow(BitsOf(w.bits, doc.row.file.md5, req.owner), j - 1);
      StepComplete(run, req, io, 1 + (j - 1), w, Check(doc, j - 1, found));
    }
  }

  /** The clean-up before its i-th removal, which are calls base, base + 1, ... */
  function Removing(w: World, req: Request, doc: Doc, io: nat -> IO, base: nat, i: nat): (World, Proc)
    requires req.Complete?
  {
    (w.(objects := RemovedBy(w.objects, doc.row.file.md5, io, base, i)), Proc(req, AfterRemove(doc, req.total, i)))
  }

  lemma RemoveCall(run: nat -> (World, Proc), w: World, req: Request, doc: Doc, io: nat -> IO, base: nat, i: nat)
    requires Follows(run, CallsOf(io)) && req.Complete? && i < req.total
    requires run(base + i) == Removing(w, req, doc, io, base, i)
    ensures run(base + i + 1) ==
      if Reported(io(base + i)) then Removing(w, req, doc, io, base, i + 1)
      else (Removing(w, req, doc, io, base, i + 1).0, Proc(req, ClearBits(doc)))
  {
    StepComplete(run, req, io, base + i, Removing(w, req, doc, io, base, i).0, Remove(doc, i));
  }

  /** The removal loop up to its j-th call, all of which succeeded. */
  lemma {:induction false} RemoveCalls(run: nat -> (World, Proc), w: World, req: Request, doc: Doc, io: nat -> IO,
      base: nat, j: nat)
    requires Follows(run, CallsOf(io)) && req.Complete? && j <= Most(req.total)
    requires run(base) == (w, Proc(req, AfterRemove(doc, req.total, 0))) && AllReported(io, base, base + j)
    ensures run(base + j) == Removing(w, req, doc, io, base, j)
  {
    if j == 0 {
      assert w.(objects := w.objects) == w;
    } else {
      RemoveCalls(run, w, req, doc, io, base, j - 1);
      assert Reported(io(base + (j - 1)));
      RemoveCall(run, w, req, doc, io, base, j - 1);
    }
  }

  /** The removal loop as a whole: it ends at the bitmap call, early or not. */
  lemma RemoveLoop(run: nat -> (World, Proc), w: World, req: Request, doc: Doc, io: nat -> IO, base: nat, n: nat,
      failed: bool)
    requires Follows(run, CallsOf(io)) && req.Complete? && n <= Most(req.total)
    requires run(base) == (w, Proc(req, AfterRemove(doc, req.total, 0)))
    requires if failed then n > 0 && AllReported(io, base, base + n - 1) && !Reported(io(base + n - 1))
             else n == Most(req.total) && AllReported(io, base, base + n)
    ensures run(base + n) == (Removing(w, req, doc, io, base, n).0, Proc(req, ClearBits(doc)))
  {
    if failed {
      RemoveCalls(run, w, req, doc, io, base, n - 1);
      RemoveCall(run, w, req, doc, io, base, n - 1);
    } else {
      RemoveCalls(run, w, req, doc, io, base, n);
    }
  }

  class Service {
    const docs: DocumentRepo
    const tenants: TenantRepo.Database
    const objects: ObjectStore
    const progress: UploadProgress
    const producer: Producer
    const limits: Limits

    constructor (docs: DocumentRepo, tenants: TenantRepo.Database, objects: ObjectStore,
                 progress: UploadProgress, producer: Producer, limits: Limits)
      ensures this.docs == docs && this.tenants == tenants && this.objects == objects
      ensures this.progress == progress && this.producer == producer && this.limits == limits
    {
      this.docs, this.tenants, this.objects := docs, tenants, objects;
      this.progress, this.producer, this.limits := progress, producer, limits;
    }

    ghost function Stores(): World
      reads docs, tenants, objects, progress, producer
    {
      World(limits, Tenancy.State(tenants.View(), {}, {}), docs.rows, objects.objects, progress.bits, producer.log)
    }

    method OwnedDoc(ownerID: int, docID: int, io: IO) returns (doc: Doc, err: Option<Error>)
      ensures err.None? <==>
        && Reported(io) && docID in docs.rows && docs.rows[docID].deletedAt.None?
        && docs.rows[docID].file.owner == ownerID
      ensures err.None? ==> doc == Doc(docID, docs.rows[docID])
      ensures err.Some? ==> err == Some(if Reported(io) then NotFound else StoreFault)
    {
      doc := Doc(docID, Row(File("", 0, "", "", "", false), 0, 0, false, None));
      var found;
      found, err := docs.GetByID(docID, io);
      if err.Some? { return; }
      doc := found.value;
      if doc.row.file.owner != ownerID { err := Some(NotFound); }
    }

    /** The tenant a new document goes to: the default one, or a requested one the owner is in. */
    method ResolveTenant(ownerID: int, tenantTag: string, io: IO) returns (tag: string, err: Option<Error>)
      ensures err.None? ==> Reported(io) && Tenancy.IsMember(tenants.members, ownerID, tag)
      ensures err.None? ==>
        if tenantTag == "" then Tenancy.PrimaryTag(tenants.members, ownerID) == Some(tag) else tag == tenantTag
      ensures err.Some? && Reported(io) ==>
        if tenantTag == "" then err == Some(BadRequest) && Tenancy.PrimaryTag(tenants.members, ownerID).None?
        else err == Some(Forbidden) && !Tenancy.IsMember(tenants.members, ownerID, tenantTag)
      ensures !Reported(io) ==> err == Some(StoreFault)
    {
      if tenantTag == "" {
        var found, e := tenants.GetPrimaryTag(ownerID, io.fault);
        if e.Some? { return "", Some(if e.value.NotFound? then BadRequest else StoreFault); }
        assert Tenancy.IsPrimary(tenants.members, ownerID, found);
        return found, None;
      }
      var ok, e := tenants.IsMemberOf(ownerID, tenantTag, io.fault);
      if e.Some? { return "", Some(StoreFault); }
      if !ok { return "", Some(Forbidden); }
      return tenantTag, None;
    }

    method InitiateUpload(p: Request, io: nat -> IO) returns (reply: Reply, calls: nat)
      requires p.Initiate? && UniquePairs(docs.rows)
      modifies docs
      ensures UniquePairs(docs.rows)
      ensures Run(old(Stores()), p, io, calls) == (Stores(), Proc(p, Done(reply)))
    {
      ghost var w := Stores();
      ghost var run := RunOf(w, p, io);
      StepInitiate(run, p, io, 0, w, Start);
      if p.size > limits.maxFileSize { return Failed(FileTooLarge), 1; }
      var ext := FileExt(p.name);
      if ext !in limits.allowedExts { return Failed(UnsupportedType), 1; }
      if p.total <= 0 || p.md5 == "" { return Failed(BadRequest), 1; }
      var tag, err := ResolveTenant(p.owner, p.tag, io(0));
      if err.Some? { return Failed(err.value), 1; }

      StepInitiate(run, p, io, 1, w, Lookup(tag));
      var existing, e := docs.GetByMD5AndOwner(p.md5, p.owner, io(1));
      if e.None? {
        if existing.value.row.merged { return Initiated(existing.value.id, true, []), 2; }
        reply, calls := ResumeExisting(run, p, existing.value, io);
        return;
      }
      if e != Some(NotFound) { return Failed(e.value), 2; }

      reply := CreateNew(run, p, ext, tag, io);
      calls := 3;
    }

    /** The branch of InitiateUpload for a pair without a live document. */
    method CreateNew(ghost run: nat -> (World, Proc), p: Request, ext: string, tag: string, io: nat -> IO)
      returns (reply: Reply)
      requires Follows(run, CallsOf(io)) && p.Initiate? && ext == FileExt(p.name) && UniquePairs(docs.rows)
      requires run(2) == (Stores(), Proc(p, Insert(tag)))
      modifies docs
      ensures UniquePairs(docs.rows)
      ensures run(3) == (Stores(), Proc(p, Done(reply)))
    {
      StepInitiate(run, p, io, 2, Stores(), Insert(tag));
      var row := Row(File(p.md5, p.owner, p.name, ext, tag, p.public), io(2).now, p.size, false, None);
      var err := docs.Create(row, io(2));
      reply := if err.Some? then Failed(err.value) else Initiated(io(2).newId, false, []);
    }

    /** The branch of InitiateUpload for a document that is being uploaded. */
    method ResumeExisting(ghost run: nat -> (World, Proc), p: Request, existing: Doc, io: nat -> IO)
      returns (reply: Reply, calls: nat)
      requires Follows(run, CallsOf(io)) && p.Initiate? && p.total > 0
      requires run(2) == (Stores(), Proc(p, PC.Resume(existing.id, 0, [])))
      ensures run(calls) == (Stores(), Proc(p, Done(reply)))
    {
      var parts, err;
      parts, err, calls := progress.UploadedParts(p.md5, p.owner, p.total, io, 2);
      ghost var done := if err.Some? then calls - 1 else calls;
      ResumeCalls(run, p, io, Stores(), existing.id, done);
      if err.Some? {
        ghost var found := SetBitsBelow(BitsOf(progress.bits, p.md5, p.owner), done);
        StepInitiate(run, p, io, 2 + done, Stores(), PC.Resume(existing.id, done, found));
      }
      calls := 2 + calls;
      reply := if err.Some? then Failed(StoreFault) else Initiated(existing.id, false, parts);
    }

    method UploadPart(ownerID: int, docID: int, partNumber: int, totalParts: int, content: Bytes, io: nat -> IO)
      returns (reply: Reply, calls: nat)
      modifies objects, progress
      ensures var req := Request.UploadPart(ownerID, docID, partNumber, totalParts, content);
        Run(old(Stores()), req, io, calls) == (Stores(), Proc(req, Done(reply)))
    {
      ghost var w, req := Stores(), Request.UploadPart(ownerID, docID, partNumber, totalParts, content);
      ghost var run := RunOf(w, req, io);
      StepPart(run, req, io, 0, w, Start);
      var doc, err := OwnedDoc(ownerID, docID, io(0));
      if err.Some? { return Failed(err.value), 1; }
      if doc.row.merged { return Uploaded, 1; }
      if partNumber < 0 || partNumber >= totalParts { return Failed(BadRequest), 1; }
      StepPart(run, req, io, 1, w, Put(doc));
      err := objects.PutPart(doc.row.file.md5, partNumber, content, io(1));
      if err.Some? { return Failed(err.value), 2; }
      StepPart(run, req, io, 2, Stores(), Mark(doc));
      err := progress.MarkPart(doc.row.file.md5, ownerID, partNumber, io(2));
      return if err.Some? then Failed(err.value) else Uploaded, 3;
    }

    method DeleteDocument(ownerID: int, docID: int, io: nat -> IO) returns (reply: Reply, calls: nat)
      modifies docs, producer
      ensures var req := DeleteDoc(ownerID, docID);
        Run(old(Stores()), req, io, calls) == (Stores(), Proc(req, Done(reply)))
    {
      ghost var w, req := Stores(), DeleteDoc(ownerID, docID);
      ghost var run := RunOf(w, req, io);
      StepDelete(run, req, io, 0, w, Start);
      var found, err := docs.GetByIDAny(docID, io(0));
      if err.Some? { return Failed(err.value), 1; }
      var doc := found.value;
      if doc.row.file.owner != ownerID { return Failed(NotFound), 1; }
      StepDelete(run, req, io, 1, w, PC.SoftDelete(doc));
      err := docs.SoftDelete(docID, io(1));
      if err.Some? { return Failed(err.value), 2; }
      StepDelete(run, req, io, 2, Stores(), PublishDelete(doc));
      err := producer.Publish(DeleteOf(doc), io(2));
      return if err.Some? then Failed(err.value) else Deleted, 3;
    }

    method ListDocuments(ownerID: int, page: int, size: int, answer: seq<int>, io: nat -> IO)
      returns (listed: seq<Doc>, total: nat, err: Option<Error>)
      requires IsListing(docs.rows, ownerID, answer)
      ensures err.None? <==> Reported(io(0)) && Reported(io(1))
      ensures err.None? ==>
        AreDocs(docs.rows, Requested(answer, page, size), listed) && total == |answer|
      ensures err.None? ==>
        AreAtPage(docs.rows, listed, answer, if page >= 1 then page else 1, if 1 <= size <= 100 then size else 20)
      ensures |listed| <= 100
    {
      var page', size' := page, size;
      if page' < 1 { page' := 1; }
      if size' < 1 || size' > 100 { size' := 20; }
      listed, total, err := docs.ListByOwner(ownerID, page', size', answer, io);
      if err.None? { RequestedIsThePage(docs.rows, listed, answer, page, size); }
    }

    method CompleteUpload(ownerID: int, docID: int, totalParts: int, io: nat -> IO) returns (reply: Reply, calls: nat)
      modifies docs, objects, progress, producer
      ensures var req := Complete(ownerID, docID, totalParts);
        Run(old(Stores()), req, io, calls) == (Stores(), Proc(req, Done(reply)))
    {
      ghost var w, req := Stores(), Complete(ownerID, docID, totalParts);
      ghost var run := RunOf(w, req, io);
      StepComplete(run, req, io, 0, w, Start);
      var doc, err := OwnedDoc(ownerID, docID, io(0));
      if err.Some? { return Failed(err.value), 1; }
      if doc.row.merged { return Completed(doc), 1; }
      if totalParts < 0 { return Panicked, 1; }

      var allUp;
      allUp, err, calls := progress.AllUploaded(doc.row.file.md5, ownerID, totalParts, io, 1);
      ghost var done := if err.Some? then calls - 1 else calls;
      CheckCalls(run, req, io, w, doc, done);
      if err.Some? {
        ghost var found := SetBitsBelow(BitsOf(w.bits, doc.row.file.md5, ownerID), done);
        StepComplete(run, req, io, 1 + done, w, Check(doc, done, found));
      }
      calls := 1 + calls;
      if err.Some? { return Failed(err.value), calls; }
      if !allUp { return Failed(PartsIncomplete), calls; }
      reply, calls := MergeAndPublish(run, req, doc, totalParts, io, calls);
    }

    /** What follows the check of CompleteUpload, from the compose call on. */
    method MergeAndPublish(ghost run: nat -> (World, Proc), ghost req: Request, doc: Doc, totalParts: nat,
        io: nat -> IO, base: nat)
      returns (reply: Reply, calls: nat)
      requires req == Complete(doc.row.file.owner, doc.id, totalParts)
      requires Follows(run, CallsOf(io)) && run(base) == (Stores(), Proc(req, Compose(doc)))
      modifies docs, objects, progress, producer
      ensures run(calls) == (Stores(), Proc(req, Done(reply)))
    {
      ghost var w := Stores();
      var mergedKey, size, err := objects.ComposeMerged(doc.row.file.md5, doc.row.file.name, totalParts, io(base));
      calls := base + 1;
      StepComplete(run, req, io, base, w, Compose(doc));
      if err.Some? { return Failed(err.value), calls; }

      w := Stores();
      err := docs.MarkMerged(doc.id, size, io(calls));
      StepComplete(run, req, io, calls, w, SetMerged(doc, size));
      calls := calls + 1;
      if err.Some? { return Failed(err.value), calls; }
      var merged := doc.(row := doc.row.(merged := true, size := size));
      reply, calls := CleanUpAndPublish(run, req, merged, mergedKey, totalParts, io, calls);
    }

    /** What follows MarkMerged: clean up, then publish the event with the key of the merged object. */
    method CleanUpAndPublish(ghost run: nat -> (World, Proc), ghost req: Request, doc: Doc, mergedKey: string,
        totalParts: nat, io: nat -> IO, base: nat)
      returns (reply: Reply, calls: nat)
      requires req == Complete(doc.row.file.owner, doc.id, totalParts)
      requires mergedKey == KeyCodec.MergedKey(doc.row.file.md5, doc.row.file.name)
      requires Follows(run, CallsOf(io)) && run(base) == (Stores(), Proc(req, AfterRemove(doc, totalParts, 0)))
      modifies objects, progress, producer
      ensures run(calls) == (Stores(), Proc(req, Done(reply)))
    {
      calls := CleanUp(run, req, doc, totalParts, io, base);
      ghost var w := Stores();
      var err := producer.Publish(Ingest(doc.id, doc.row.file, mergedKey), io(calls));
      StepComplete(run, req, io, calls, w, Publish(doc));
      calls := calls + 1;
      return if err.Some? then Unpublished(doc) else Completed(doc), calls;
    }

    /** Remove the parts, clear the bitmap; errors of either are dropped. */
    method CleanUp(ghost run: nat -> (World, Proc), ghost req: Request, doc: Doc, totalParts: nat, io: nat -> IO,
        base: nat)
      returns (calls: nat)
      requires req == Complete(doc.row.file.owner, doc.id, totalParts)
      requires Follows(run, CallsOf(io)) && run(base) == (Stores(), Proc(req, AfterRemove(doc, totalParts, 0)))
      modifies objects, progress
      ensures run(calls) == (Stores(), Proc(req, Publish(doc)))
    {
      ghost var w := Stores();
      var err, removed := objects.RemoveParts(doc.row.file.md5, totalParts, io, base);
      calls := base + removed;
      RemoveLoop(run, w, req, doc, io, base, removed, err.Some?);
      w := Stores();
      err := progress.Clear(doc.row.file.md5, doc.row.file.owner, io(calls));
      StepComplete(run, req, io, calls, w, ClearBits(doc));
      calls := calls + 1;
    }
  }
}
