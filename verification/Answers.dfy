// What every request answers and what it leaves behind: first for calls that do not fail, as a table over
// rows, memberships, bits and objects, and then for calls that do.
module Answers {
  import opened Prelude
  import opened KeyCodec
  import opened Upload
  import opened Interleaving
  import opened Serial
  import opened Retry
  import opened Resume
  import Tenancy

  // ---- InitiateUpload ----

  ghost predicate IsRowOf(rows: map<int, Row>, id: int, md5: string, owner: int) {
    id in rows && rows[id].file.md5 == md5 && rows[id].file.owner == owner
  }

  /** The tenant a new document goes to: a default one, or the one asked for if the owner is in it. */
  ghost predicate GoesTo(ms: seq<Tenancy.Membership>, owner: int, asked: string, tag: string) {
    if asked == "" then Tenancy.Membership(owner, tag, true) in ms
    else tag == asked && exists k :: 0 <= k < |ms| && ms[k].user == owner && ms[k].tag == tag
  }

  predicate IsSet(bits: map<string, set<nat>>, key: string, i: nat) { key in bits && i in bits[key] }

  /** The set bits below total of one bitmap, in increasing order. */
  ghost predicate ListsBits(list: seq<nat>, bits: map<string, set<nat>>, key: string, total: int) {
    && total >= 0 && Increasing(list, total)
    && forall i: nat :: i in list <==> i < total && IsSet(bits, key, i)
  }

  predicate FitsTable(md5: string, name: string, ext: string, tag: string) {
    |md5| <= 32 && |name| <= 255 && |ext| <= 16 && |tag| <= 64
  }

  /** The pair has row id: an instant hit, an upload to resume, or a deletion that is in the way. */
  ghost predicate AnswerForRow(w: World, r: Request, id: int, w': World, reply: Reply)
    requires r.Initiate? && id in w.rows
  {
    && w' == w
    && (w.rows[id].deletedAt.Some? ==>
          exists tag :: GoesTo(w.tenancy.db.members, r.owner, r.tag, tag)
            && reply == Failed(if FitsTable(r.md5, r.name, FileExt(r.name), tag) then Conflict else StoreFault))
    && (w.rows[id].deletedAt.None? && w.rows[id].merged ==> reply == Initiated(id, true, []))
    && (w.rows[id].deletedAt.None? && !w.rows[id].merged ==>
          && reply.Initiated? && reply.id == id && !reply.instantHit
          && ListsBits(reply.uploaded, w.bits, ProgressKey(r.md5, r.owner), r.total))
  }

  /** The row of a new document. */
  function NewRowOf(r: Request, tag: string, now: int): Row
    requires r.Initiate?
  {
    Row(File(r.md5, r.owner, r.name, FileExt(r.name), tag, r.public), now, r.size, false, None)
  }

  /** The pair has no row: one is made, in the right tenant. */
  ghost predicate AnswerForNew(w: World, r: Request, io: IO, w': World, reply: Reply)
    requires r.Initiate?
  {
    exists tag :: GoesTo(w.tenancy.db.members, r.owner, r.tag, tag) && AnswerForNewIn(w, r, io, tag, w', reply)
  }

  predicate AnswerForNewIn(w: World, r: Request, io: IO, tag: string, w': World, reply: Reply)
    requires r.Initiate?
  {
    if !FitsTable(r.md5, r.name, FileExt(r.name), tag) then reply == Failed(StoreFault) && w' == w
    else if io.newId in w.rows then reply == Failed(Conflict) && w' == w
    else
      reply == Initiated(io.newId, false, []) && w' == w.(rows := w.rows[io.newId := NewRowOf(r, tag, io.now)])
  }

  ghost predicate InitiateAnswer(w: World, r: Request, io: IO, w': World, reply: Reply)
    requires r.Initiate?
  {
    if r.size > w.limits.maxFileSize then reply == Failed(FileTooLarge) && w' == w
    else if FileExt(r.name) !in w.limits.allowedExts then reply == Failed(UnsupportedType) && w' == w
    else if r.total <= 0 || r.md5 == "" then reply == Failed(BadRequest) && w' == w
    else if forall tag :: !GoesTo(w.tenancy.db.members, r.owner, r.tag, tag) then
      reply == Failed(if r.tag == "" then BadRequest else Forbidden) && w' == w
    else
      && (forall id :: IsRowOf(w.rows, id, r.md5, r.owner) ==> AnswerForRow(w, r, id, w', reply))
      && ((forall id :: !IsRowOf(w.rows, id, r.md5, r.owner)) ==> AnswerForNew(w, r, io, w', reply))
  }

  lemma Resolves(w: World, r: Request)
    requires r.Initiate? && r.size <= w.limits.maxFileSize && FileExt(r.name) in w.limits.allowedExts
    requires r.total > 0 && r.md5 != ""
    ensures Admissible(w, r) <==> exists tag :: GoesTo(w.tenancy.db.members, r.owner, r.tag, tag)
    ensures Admissible(w, r) ==> GoesTo(w.tenancy.db.members, r.owner, r.tag, TagOf(w, r))
  {
    var ms := w.tenancy.db.members;
    if r.tag == "" {
      var primary := Tenancy.PrimaryTag(ms, r.owner);
      if primary.Some? {
        assert Tenancy.IsPrimary(ms, r.owner, primary.value);
        assert GoesTo(ms, r.owner, r.tag, primary.value);
      }
      if tag :| GoesTo(ms, r.owner, r.tag, tag) { assert Tenancy.IsPrimary(ms, r.owner, tag); }
    } else {
      if Tenancy.IsMember(ms, r.owner, r.tag) { assert GoesTo(ms, r.owner, r.tag, r.tag); }
      if tag :| GoesTo(ms, r.owner, r.tag, tag) { assert Tenancy.IsMember(ms, r.owner, r.tag); }
    }
  }

  /** A request that is refused before the tables of documents are looked at. */
  lemma RefusedInitiate(w: World, r: Request, io: nat -> IO, k: nat)
    requires r.Initiate? && !Admissible(w, r) && Quiet(io) && k >= 1
    ensures var (w', p') := Run(w, r, io, k); p'.pc.Done? && InitiateAnswer(w, r, io(2), w', p'.pc.reply)
  {
    assert Run(w, r, io, 0) == (w, Proc(r, Start));
    assert Run(w, r, io, 1) == AdvanceInitiate(w, Proc(r, Start), io(0));
    DoneIsFinal(w, r, io, 1, k);
    if r.size <= w.limits.maxFileSize && FileExt(r.name) in w.limits.allowedExts && r.total > 0 && r.md5 != "" {
      Resolves(w, r);
    }
  }

  /** The calls of an admissible request on a pair without a live row. */
  lemma InsertAnswers(w: World, r: Request, io: nat -> IO, k: nat)
    requires UniquePairs(w.rows) && Admissible(w, r) && Quiet(io) && k >= 3 && FindLive(w.rows, r.md5, r.owner).None?
    ensures var (w', p') := Run(w, r, io, k);
      && p'.pc.Done?
      && (forall id :: IsRowOf(w.rows, id, r.md5, r.owner) ==> AnswerForRow(w, r, id, w', p'.pc.reply))
      && ((forall id :: !IsRowOf(w.rows, id, r.md5, r.owner)) ==> AnswerForNew(w, r, io(2), w', p'.pc.reply))
  {
    Resolves(w, r);
    var tag := TagOf(w, r);
    var run := RunOf(w, r, io);
    StepInitiate(run, r, io, 0, w, Start);
    StepInitiate(run, r, io, 1, w, Lookup(tag));
    StepInitiate(run, r, io, 2, w, Insert(tag));
    assert Run(w, r, io, 3) == run(3);
    DoneIsFinal(w, r, io, 3, k);
    var (w', p') := run(3);
    assert Taken(w.rows, r.md5, r.owner) <==> exists id :: IsRowOf(w.rows, id, r.md5, r.owner) by {
      if id :| IsRowOf(w.rows, id, r.md5, r.owner) { assert w.rows[id].file.md5 == r.md5; }
      if Taken(w.rows, r.md5, r.owner) {
        var id :| id in w.rows && w.rows[id].file.md5 == r.md5 && w.rows[id].file.owner == r.owner;
        assert IsRowOf(w.rows, id, r.md5, r.owner);
      }
    }
    forall id | IsRowOf(w.rows, id, r.md5, r.owner) ensures AnswerForRow(w, r, id, w', p'.pc.reply) {
      assert !IsLive(w.rows, id, r.md5, r.owner);
      assert GoesTo(w.tenancy.db.members, r.owner, r.tag, tag);
    }
    if forall id :: !IsRowOf(w.rows, id, r.md5, r.owner) { assert GoesTo(w.tenancy.db.members, r.owner, r.tag, tag); }
  }

  /** A hit is decided by the lookup. */
  lemma HitAnswers(w: World, r: Request, io: nat -> IO, k: nat, id: int)
    requires Admissible(w, r) && Quiet(io) && k >= 2 && id in w.rows && w.rows[id].merged
    requires FindLive(w.rows, r.md5, r.owner) == Some(Doc(id, w.rows[id]))
    ensures Run(w, r, io, k) == (w, Proc(r, Done(Initiated(id, true, []))))
  {
    var run := RunOf(w, r, io);
    StepInitiate(run, r, io, 0, w, Start);
    StepInitiate(run, r, io, 1, w, Lookup(TagOf(w, r)));
    assert Run(w, r, io, 2) == run(2);
    DoneIsFinal(w, r, io, 2, k);
  }

  /** The calls of an admissible request on a pair with a live row. */
  lemma FoundAnswers(w: World, r: Request, io: nat -> IO, k: nat, id: int)
    requires Admissible(w, r) && Quiet(io) && k >= Bound(r)
    requires id in w.rows && FindLive(w.rows, r.md5, r.owner) == Some(Doc(id, w.rows[id]))
    ensures var (w', p') := Run(w, r, io, k); p'.pc.Done? && AnswerForRow(w, r, id, w', p'.pc.reply)
  {
    if w.rows[id].merged {
      HitAnswers(w, r, io, k, id);
    } else {
      ScanByInitiate(w, r, id, io, r.total);
      DoneIsFinal(w, r, io, r.total + 2, k);
      ScanIsExact(BitsFor(w, id), r.total);
    }
  }

  /** The answers of InitiateUpload. */
  lemma InitiateAnswers(w: World, r: Request, io: nat -> IO, k: nat)
    requires UniquePairs(w.rows) && r.Initiate? && Quiet(io) && k >= Bound(r)
    ensures var (w', p') := Run(w, r, io, k); p'.pc.Done? && InitiateAnswer(w, r, io(2), w', p'.pc.reply)
  {
    if !Admissible(w, r) {
      RefusedInitiate(w, r, io, k);
    } else {
      Resolves(w, r);
      var found := FindLive(w.rows, r.md5, r.owner);
      if found.None? {
        InsertAnswers(w, r, io, k);
      } else {
        FoundAnswers(w, r, io, k, found.value.id);
        forall id | IsRowOf(w.rows, id, r.md5, r.owner) ensures id == found.value.id {}
        assert IsRowOf(w.rows, found.value.id, r.md5, r.owner);
      }
    }
  }

  // ---- UploadPart ----

  /** Not there, deleted, or somebody else's: the caller cannot tell which. */
  predicate IsHidden(rows: map<int, Row>, id: int, owner: int) {
    id !in rows || rows[id].deletedAt.Some? || rows[id].file.owner != owner
  }

  predicate PartAnswer(w: World, r: Request, w': World, reply: Reply)
    requires r.UploadPart?
  {
    if r.id !in w.rows || w.rows[r.id].deletedAt.Some? || w.rows[r.id].file.owner != r.owner then
      reply == Failed(NotFound) && w' == w
    else if w.rows[r.id].merged then reply == Uploaded && w' == w
    else if r.index < 0 || r.index >= r.total then reply == Failed(BadRequest) && w' == w
    else
      var md5 := w.rows[r.id].file.md5;
      var key := ProgressKey(md5, r.owner);
      && reply == Uploaded
      && w' == w.(objects := w.objects[PartKey(md5, r.index) := r.content],
                  bits := w.bits[key := (if key in w.bits then w.bits[key] else {}) + {r.index}])
  }

  /** The answers of UploadPart; NotFound exactly for a row that is absent, deleted or another's. */
  lemma PartAnswers(w: World, r: Request, io: nat -> IO, k: nat)
    requires r.UploadPart? && Quiet(io) && k >= Bound(r)
    ensures var (w', p') := Run(w, r, io, k); p'.pc.Done? && PartAnswer(w, r, w', p'.pc.reply)
    ensures Run(w, r, io, k).1.pc == Done(Failed(NotFound)) <==> IsHidden(w.rows, r.id, r.owner)
  {
    var run := RunOf(w, r, io);
    StepPart(run, r, io, 0, w, Start);
    assert Run(w, r, io, 1) == run(1);
    if run(1).1.pc.Done? {
      DoneIsFinal(w, r, io, 1, k);
    } else {
      StepPart(run, r, io, 1, w, run(1).1.pc);
      StepPart(run, r, io, 2, run(2).0, run(2).1.pc);
      assert Run(w, r, io, 3) == run(3);
      DoneIsFinal(w, r, io, 3, k);
    }
  }

  // ---- CompleteUpload ----

  ghost predicate BitIsUnset(bits: map<string, set<nat>>, key: string, total: int) {
    exists i: nat :: i < total && !IsSet(bits, key, i)
  }

  ghost predicate PartIsGone(objects: map<string, Bytes>, md5: string, total: int) {
    exists i: nat :: i < total && PartKey(md5, i) !in objects
  }

  ghost predicate CompleteAnswer(w: World, r: Request, w': World, reply: Reply)
    requires r.Complete?
  {
    if r.id !in w.rows || w.rows[r.id].deletedAt.Some? || w.rows[r.id].file.owner != r.owner then
      reply == Failed(NotFound) && w' == w
    else if w.rows[r.id].merged then reply == Completed(Doc(r.id, w.rows[r.id])) && w' == w
    else if r.total < 0 then reply == Panicked && w' == w
    else
      var f := w.rows[r.id].file;
      if BitIsUnset(w.bits, ProgressKey(f.md5, f.owner), r.total) then reply == Failed(PartsIncomplete) && w' == w
      else if r.total == 0 || PartIsGone(w.objects, f.md5, r.total) then reply == Failed(SourceMissing) && w' == w
      else HasParts(w.objects, f.md5, r.total) && MergeAnswer(w, r, Joined(w.objects, f.md5, r.total), w', reply)
  }

  /** The document is merged into this file. */
  ghost predicate MergeAnswer(w: World, r: Request, file: Bytes, w': World, reply: Reply)
    requires r.Complete? && r.id in w.rows
  {
    var row := w.rows[r.id].(merged := true, size := |file|);
    var f := row.file;
    && reply == Completed(Doc(r.id, row)) && w'.rows == w.rows[r.id := row]
    && w'.log == w.log + [Ingest(r.id, f, MergedKey(f.md5, f.name))]
    && MergedKey(f.md5, f.name) in w'.objects && w'.objects[MergedKey(f.md5, f.name)] == file
    && (forall i: nat :: i < r.total ==> PartKey(f.md5, i) !in w'.objects)
    && (ProgressKey(f.md5, f.owner) in w'.bits ==> w'.bits[ProgressKey(f.md5, f.owner)] == {})
  }

  lemma MissingBits(w: World, id: int, n: nat)
    requires id in w.rows
    ensures var f := w.rows[id].file;
      && (Missing(w, id, n) != {} <==> BitIsUnset(w.bits, ProgressKey(f.md5, f.owner), n))
      && (HasParts(w.objects, f.md5, n) <==> !PartIsGone(w.objects, f.md5, n))
  {
    var f := w.rows[id].file;
    var key := ProgressKey(f.md5, f.owner);
    if i: nat :| i < n && !IsSet(w.bits, key, i) { assert i in Missing(w, id, n); }
    if Missing(w, id, n) != {} {
      var i :| i in Missing(w, id, n);
      assert !IsSet(w.bits, key, i);
    }
  }

  lemma MergeAnswers(w: World, r: Request, io: nat -> IO, k: nat)
    requires r.Complete? && r.total > 0 && Ready(w, r.id, r.total) && w.rows[r.id].file.owner == r.owner && Quiet(io)
      && k >= Bound(r)
    ensures var (w', p') := Run(w, r, io, k);
      && p'.pc.Done? && HasParts(w.objects, w.rows[r.id].file.md5, r.total)
      && MergeAnswer(w, r, Joined(w.objects, w.rows[r.id].file.md5, r.total), w', p'.pc.reply)
  {
    CleanTrySucceeds(w, w, r.id, r.total, io, k);
  }

  /** No parts are asked for: there is nothing to compose. */
  lemma NothingToCompose(w: World, r: Request, io: nat -> IO, k: nat)
    requires r.Complete? && r.total == 0 && Uploading(w, r.id) && w.rows[r.id].file.owner == r.owner
    requires Quiet(io) && k >= 2
    ensures Run(w, r, io, k) == (w, Proc(r, Done(Failed(SourceMissing))))
  {
    var run := RunOf(w, r, io);
    StepComplete(run, r, io, 0, w, Start);
    StepComplete(run, r, io, 1, w, Compose(Doc(r.id, w.rows[r.id])));
    assert Run(w, r, io, 2) == run(2);
    DoneIsFinal(w, r, io, 2, k);
  }

  /** The answers of CompleteUpload; NotFound exactly for a row that is absent, deleted or another's. */
  lemma CompleteAnswers(w: World, r: Request, io: nat -> IO, k: nat)
    requires r.Complete? && Quiet(io) && k >= Bound(r)
    ensures var (w', p') := Run(w, r, io, k); p'.pc.Done? && CompleteAnswer(w, r, w', p'.pc.reply)
    ensures Run(w, r, io, k).1.pc == Done(Failed(NotFound)) <==> IsHidden(w.rows, r.id, r.owner)
  {
    if IsHidden(w.rows, r.id, r.owner) || w.rows[r.id].merged || r.total < 0 {
      var run := RunOf(w, r, io);
      StepComplete(run, r, io, 0, w, Start);
      assert Run(w, r, io, 1) == run(1);
      DoneIsFinal(w, r, io, 1, k);
    } else {
      MissingBits(w, r.id, r.total);
      if r.total == 0 {
        NothingToCompose(w, r, io, k);
      } else {
        CleanComplete(w, r.id, r.total, io, k);
        if Missing(w, r.id, r.total) == {} && HasParts(w.objects, w.rows[r.id].file.md5, r.total) {
          MergeAnswers(w, r, io, k);
        }
      }
    }
  }

  // ---- DeleteDocument ----

  predicate DeleteAnswer(w: World, r: Request, io: IO, w': World, reply: Reply)
    requires r.DeleteDoc?
  {
    if r.id !in w.rows || w.rows[r.id].file.owner != r.owner then reply == Failed(NotFound) && w' == w
    else
      var row := w.rows[r.id];
      var f := row.file;
      && reply == Deleted
      && w' == w.(rows := w.rows[r.id :=
         row.(deletedAt := if row.deletedAt.Some? then row.deletedAt else Some(io.now))],
                  log := w.log + [Delete(r.id, f.md5, f.name, MergedKey(f.md5, f.name))])
  }

  /** The answers of DeleteDocument. A row that is deleted already keeps its time, and is announced again. */
  lemma DeleteAnswers(w: World, r: Request, io: nat -> IO, k: nat)
    requires r.DeleteDoc? && Quiet(io) && k >= Bound(r)
    ensures var (w', p') := Run(w, r, io, k); p'.pc.Done? && DeleteAnswer(w, r, io(1), w', p'.pc.reply)
  {
    var run := RunOf(w, r, io);
    StepDelete(run, r, io, 0, w, Start);
    assert Run(w, r, io, 1) == run(1);
    if run(1).1.pc.Done? {
      DoneIsFinal(w, r, io, 1, k);
    } else {
      StepDelete(run, r, io, 1, w, run(1).1.pc);
      StepDelete(run, r, io, 2, run(2).0, run(2).1.pc);
      assert Run(w, r, io, 3) == run(3);
      DoneIsFinal(w, r, io, 3, k);
    }
  }

  // ---- calls that fail ----

  /** The same world, if its calls did not fail. */
  function Calm(io: nat -> IO): nat -> IO { (k: nat) => io(k).(fault := NoFault) }

  lemma CalmIsQuiet(io: nat -> IO)
    ensures Quiet(Calm(io))
  {}

  /** A store call that fails is either without consequence for this request or ends it with an error. */
  lemma FaultEndsInitiate(w: World, p: Proc, io: IO)
    requires p.req.Initiate?
    ensures AdvanceInitiate(w, p, io) == AdvanceInitiate(w, p, io.(fault := NoFault))
      || AdvanceInitiate(w, p, io).1.pc == Done(Failed(StoreFault))
  {}

  lemma FaultEndsPart(w: World, p: Proc, io: IO)
    requires p.req.UploadPart?
    ensures AdvancePart(w, p, io) == AdvancePart(w, p, io.(fault := NoFault))
      || AdvancePart(w, p, io).1.pc == Done(Failed(StoreFault))
  {}

  lemma FaultEndsDelete(w: World, p: Proc, io: IO)
    requires p.req.DeleteDoc?
    ensures AdvanceDelete(w, p, io) == AdvanceDelete(w, p, io.(fault := NoFault))
      || AdvanceDelete(w, p, io).1.pc == Done(Failed(StoreFault))
  {}

  /** Two runs of a request, one with faults and one without. */
  lemma {:induction false} RunsAgree(run: nat -> (World, Proc), calm: nat -> (World, Proc), r: Request, io: nat -> IO,
      k: nat)
    requires !r.Complete? && Follows(run, CallsOf(io)) && Follows(calm, CallsOf(Calm(io)))
    requires run(0) == calm(0) && run(0).1.req == r
    ensures run(k).1.req == r
    ensures run(k) == calm(k) || run(k).1.pc == Done(Failed(StoreFault))
  {
    if k > 0 {
      RunsAgree(run, calm, r, io, k - 1);
      var (v, p) := run(k - 1);
      FollowsOnce(run, CallsOf(io), k - 1);
      FollowsOnce(calm, CallsOf(Calm(io)), k - 1);
      assert Calm(io)(k - 1) == io(k - 1).(fault := NoFault);
      match r
      case Initiate(_, _, _, _, _, _, _) => FaultEndsInitiate(v, p, io(k - 1));
      case UploadPart(_, _, _, _, _) => FaultEndsPart(v, p, io(k - 1));
      case DeleteDoc(_, _) => FaultEndsDelete(v, p, io(k - 1));
    }
  }

  /** Under any faults, a request other than CompleteUpload goes as it would without them, or it has ended
      with a store fault. So the tables above are also the tables of every answer that is not a store
      fault. */
  lemma AnswerOrFault(w: World, r: Request, io: nat -> IO, k: nat)
    requires !r.Complete?
    ensures Run(w, r, io, k) == Run(w, r, Calm(io), k) || Run(w, r, io, k).1.pc == Done(Failed(StoreFault))
  {
    var run := RunOf(w, r, io);
    var calm := RunOf(w, r, Calm(io));
    RunsAgree(run, calm, r, io, k);
  }

  /** The calls whose failure CompleteUpload drops, or reports together with the document. */
  predicate IsLate(pc: PC) { pc.Remove? || pc.ClearBits? || pc.Publish? }

  lemma FailedCallEnds(w: World, p: Proc, io: IO)
    requires Fits(p) && !p.pc.Done? && !IsLate(p.pc) && io.fault != NoFault
    ensures Advance(w, p, io).1.pc.Done? && Advance(w, p, io).1.pc.reply.Failed?
  {}

  /** A call that fails ends its request with an error, whichever call it is, the clean-up and the publish
      of CompleteUpload excepted: success is only answered when every call has succeeded. */
  lemma FaultsAreTold(w: World, r: Request, io: nat -> IO, j: nat, k: nat)
    requires j < k && !Run(w, r, io, j).1.pc.Done? && !IsLate(Run(w, r, io, j).1.pc) && io(j).fault != NoFault
    ensures Run(w, r, io, k).1.pc.Done? && Run(w, r, io, k).1.pc.reply.Failed?
  {
    RequestsTerminate(w, r, io, j);
    var (v, p) := Run(w, r, io, j);
    FailedCallEnds(v, p, io(j));
    assert Run(w, r, io, j + 1) == Advance(v, p, io(j));
    DoneIsFinal(w, r, io, j + 1, k);
  }

  lemma FirstLookDecides(w: World, r: Request, io: nat -> IO, k: nat)
    requires r.Complete? && (IsHidden(w.rows, r.id, r.owner) || w.rows[r.id].merged || r.total < 0) && k >= 1
    ensures Run(w, r, io, k) == AdvanceComplete(w, Proc(r, Start), io(0))
    ensures AdvanceComplete(w, Proc(r, Start), io(0)).1.pc.Done?
  {
    var run := RunOf(w, r, io);
    StepComplete(run, r, io, 0, w, Start);
    assert Run(w, r, io, 1) == run(1);
    DoneIsFinal(w, r, io, 1, k);
  }

  /** A CompleteUpload that its first look at the row decides: what it would answer, or a store fault. */
  lemma CompleteEndsEarly(w: World, r: Request, io: nat -> IO, k: nat)
    requires r.Complete? && (IsHidden(w.rows, r.id, r.owner) || w.rows[r.id].merged || r.total < 0) && k >= 1
    ensures Run(w, r, io, k) == Run(w, r, Calm(io), k) || Run(w, r, io, k) == (w, Proc(r, Done(Failed(StoreFault))))
  {
    FirstLookDecides(w, r, io, k);
    FirstLookDecides(w, r, Calm(io), k);
  }

  /** Deleted is answered only if the event of this very call is in the log. */
  lemma DeletedIsAnnounced(w: World, r: Request, io: nat -> IO, k: nat)
    requires r.DeleteDoc? && k >= Bound(r)
    ensures var (w', p') := Run(w, r, io, k);
      p'.pc == Done(Deleted) ==>
        && r.id in w.rows && |w'.log| == |w.log| + 1 && w.log <= w'.log
        && var f := w.rows[r.id].file; w'.log[|w.log|] == Delete(r.id, f.md5, f.name, MergedKey(f.md5, f.name))
  {
    AnswerOrFault(w, r, io, k);
    CalmIsQuiet(io);
    DeleteAnswers(w, r, Calm(io), k);
  }

  /** CompleteUpload of an upload that lacks bits or parts: under any faults it changes nothing and answers
      that, or a store fault. What it answers for one that lacks nothing is ReplyTellsOfThePublish. */
  lemma {:induction false} CompleteIsRefused(w: World, id: int, n: nat, io: nat -> IO, k: nat)
    requires Uploading(w, id) && !Ready(w, id, n)
    ensures var r := Complete(w.rows[id].file.owner, id, n); var (w', p') := Run(w, r, io, k);
      w' == w && p'.req == r && IsRefusal(w, id, n, p'.pc)
  {
    if k > 0 {
      var r := Complete(w.rows[id].file.owner, id, n);
      CompleteIsRefused(w, id, n, io, k - 1);
      var (v, p) := Run(w, r, io, k - 1);
      RefusalStep(w, p, io(k - 1), id, n);
    }
  }

  /** Where such a request can stand. */
  ghost predicate IsRefusal(w: World, id: int, n: nat, pc: PC)
    requires id in w.rows
  {
    match pc
    case Start => true
    case Check(doc, i, found) => doc == Doc(id, w.rows[id]) && i < n && found == SetBitsBelow(BitsFor(w, id), i)
    case Compose(doc) => doc == Doc(id, w.rows[id]) && Missing(w, id, n) == {}
    case Done(reply) =>
      reply == Failed(StoreFault) || reply == Failed(if Missing(w, id, n) == {} then SourceMissing else PartsIncomplete)
    case _ => false
  }

  lemma ScanDecides(w: World, id: int, n: nat)
    requires id in w.rows
    ensures |SetBitsBelow(BitsFor(w, id), n)| == n <==> Missing(w, id, n) == {}
  {
    ScanIsExact(BitsFor(w, id), n);
    if Missing(w, id, n) != {} { var i :| i in Missing(w, id, n); }
    if i: nat :| i < n && i !in BitsFor(w, id) { assert i in Missing(w, id, n); }
  }

  lemma RefusalStep(w: World, p: Proc, io: IO, id: int, n: nat)
    requires Uploading(w, id) && !Ready(w, id, n) && p.req == Complete(w.rows[id].file.owner, id, n)
    requires IsRefusal(w, id, n, p.pc)
    ensures var (w', p') := AdvanceComplete(w, p, io); w' == w && IsRefusal(w, id, n, p'.pc)
  {
    ScanDecides(w, id, n);
    if p.pc.Compose? && n > 0 && HasParts(w.objects, w.rows[id].file.md5, n) {
      forall i: nat | i < n ensures i in BitsFor(w, id) { assert i !in Missing(w, id, n); }
      assert false;
    }
  }
}
