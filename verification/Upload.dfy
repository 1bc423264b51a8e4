// The upload protocol of internal/service/document/document.go as a step machine. Every store
// call of a request is one atomic step; any number of requests interleave; any call may fail
// before or after it took effect; a progress bitmap may expire between any two steps.
module Upload {
  import opened Prelude
  import opened KeyCodec
  import Tenancy

  // ---- the four stores ----

  /** What never changes about a document, and the rest of its row. */
  datatype File = File(md5: string, owner: int, name: string, ext: string, tenant: string, public: bool)
  datatype Row = Row(file: File, created: int, size: int, merged: bool, deletedAt: Option<int>)

  /** A row as one request has read it. */
  datatype Doc = Doc(id: int, row: Row)

  datatype Event =
    | Ingest(id: int, file: File, key: string)
    | Delete(id: int, md5: string, name: string, key: string)

  datatype Limits = Limits(maxFileSize: int, allowedExts: set<string>)

  datatype World = World(limits: Limits, tenancy: Tenancy.State, rows: map<int, Row>,
                         objects: map<string, Bytes>, bits: map<string, set<nat>>, log: seq<Event>)

  // ---- requests ----

  datatype Request =
    | Initiate(owner: int, md5: string, name: string, size: int, total: int, tag: string, public: bool)
    | UploadPart(owner: int, id: int, index: int, total: int, content: Bytes)
    | Complete(owner: int, id: int, total: int)
    | DeleteDoc(owner: int, id: int)

  datatype Error =
    | StoreFault | NotFound | Conflict | Forbidden | BadRequest | FileTooLarge | UnsupportedType
    | PartsIncomplete | SourceMissing

  datatype Reply =
    | Initiated(id: int, instantHit: bool, uploaded: seq<nat>)
    | Uploaded
    | Completed(doc: Doc)
    | Unpublished(doc: Doc)   // the document together with a publish error
    | Deleted
    | Failed(error: Error)
    | Panicked

  /** Where a request stands; doc is the copy of the row it works from. */
  datatype PC =
    | Start
    | Lookup(tag: string) | Resume(id: int, i: nat, found: seq<nat>) | Insert(tag: string)
    | Put(doc: Doc) | Mark(doc: Doc)
    | Check(doc: Doc, i: nat, found: seq<nat>) | Compose(doc: Doc) | SetMerged(doc: Doc, size: int)
    | Remove(doc: Doc, i: nat) | ClearBits(doc: Doc) | Publish(doc: Doc)
    | SoftDelete(doc: Doc) | PublishDelete(doc: Doc)
    | Done(reply: Reply)

  datatype Proc = Proc(req: Request, pc: PC)

  // ---- file names ----

  function ToLower(s: string): (r: string)
    ensures |r| == |s| && forall k :: 0 <= k < |s| ==>
      r[k] == if 'A' <= s[k] <= 'Z' then (s[k] as int + 32) as char else s[k]
  {
    seq(|s|, k requires 0 <= k < |s| =>
      if 'A' <= s[k] <= 'Z' then (s[k] as int + 32) as char else s[k])
  }

  /** What follows the last dot, in lower case; nothing if there is no dot or it ends the name. */
  function FileExt(name: string): string {
    match SplitLast(name, '.')
    case None => ""
    case Some((_, ext)) => ToLower(ext)
  }

  /** The last dot decides, whatever precedes it; a name without dots has no extension. */
  lemma FileExtIsTheSuffix(base: string, ext: string)
    requires '.' !in ext
    ensures FileExt(base + ['.'] + ext) == ToLower(ext)
    ensures FileExt(ext) == ""
  {
    SplitLastJoins(base, '.', ext);
    SplitLastNeedsSeparator(ext, '.');
  }

  // ---- store operations ----

  ghost predicate Taken(rows: map<int, Row>, md5: string, owner: int) {
    exists id :: id in rows && rows[id].file.md5 == md5 && rows[id].file.owner == owner
  }

  /** The unique key (md5, owner), which counts soft-deleted rows. */
  ghost predicate UniquePairs(rows: map<int, Row>) {
    forall i, j :: i in rows && j in rows ==>
      rows[i].file.md5 == rows[j].file.md5 && rows[i].file.owner == rows[j].file.owner ==> i == j
  }

  ghost predicate IsLive(rows: map<int, Row>, id: int, md5: string, owner: int) {
    id in rows && rows[id].file.md5 == md5 && rows[id].file.owner == owner && rows[id].deletedAt.None?
  }

  ghost function FindLive(rows: map<int, Row>, md5: string, owner: int): (r: Option<Doc>)
    ensures r.Some? ==> IsLive(rows, r.value.id, md5, owner) && r.value.row == rows[r.value.id]
    ensures r.None? ==> forall id :: !IsLive(rows, id, md5, owner)
  {
    if exists id :: IsLive(rows, id, md5, owner) then
      var id :| IsLive(rows, id, md5, owner);
      Some(Doc(id, rows[id]))
    else None
  }

  /** The column widths of the documents table. */
  predicate FitsColumns(f: File) {
    |f.md5| <= 32 && |f.name| <= 255 && |f.ext| <= 16 && |f.tenant| <= 64
  }

  /** What the service and the table ask of an md5 and a file name. */
  predicate Uploadable(limits: Limits, md5: string, name: string) {
    && md5 != "" && FileExt(name) in limits.allowedExts
    && |md5| <= 32 && |name| <= 255 && |FileExt(name)| <= 16
  }

  function BitsOf(bits: map<string, set<nat>>, md5: string, owner: int): set<nat> {
    var key := ProgressKey(md5, owner);
    if key in bits then bits[key] else {}
  }

  function WithBit(bits: map<string, set<nat>>, md5: string, owner: int, i: nat): map<string, set<nat>> {
    bits[ProgressKey(md5, owner) := BitsOf(bits, md5, owner) + {i}]
  }

  predicate HasParts(objects: map<string, Bytes>, md5: string, n: nat) {
    forall i: nat :: i < n ==> PartKey(md5, i) in objects
  }

  function Joined(objects: map<string, Bytes>, md5: string, n: nat): Bytes
    requires HasParts(objects, md5, n)
  {
    if n == 0 then [] else Joined(objects, md5, n - 1) + objects[PartKey(md5, n - 1)]
  }

  /** ComposeObject: refuses an empty source list, and any missing source. */
  predicate CanCompose(objects: map<string, Bytes>, md5: string, total: int) {
    total >= 1 && HasParts(objects, md5, total)
  }

  function IngestOf(doc: Doc): Event {
    Ingest(doc.id, doc.row.file, MergedKey(doc.row.file.md5, doc.row.file.name))
  }

  function DeleteOf(doc: Doc): Event {
    Delete(doc.id, doc.row.file.md5, doc.row.file.name, MergedKey(doc.row.file.md5, doc.row.file.name))
  }

  function Merge(rows: map<int, Row>, id: int, size: int): map<int, Row> {
    if id in rows then rows[id := rows[id].(merged := true, size := size)] else rows
  }

  function Erase(rows: map<int, Row>, id: int, now: int): map<int, Row> {
    if id in rows && rows[id].deletedAt.None? then rows[id := rows[id].(deletedAt := Some(now))] else rows
  }

  // ---- one step of one request ----

  function Fail(w: World, p: Proc, e: Error): (World, Proc) {
    (w, p.(pc := Done(Failed(e))))
  }

  /** Continue at pc when the call was reported as successful, else return its error. */
  function Next(w: World, p: Proc, io: IO, pc: PC): (World, Proc) {
    if io.fault.Reported() then (w, p.(pc := pc)) else Fail(w, p, StoreFault)
  }

  /** The end of AllUploaded: only the number of bits found is compared with the part count. */
  function AfterCheck(doc: Doc, total: int, i: nat, found: seq<nat>): PC {
    if i < total then Check(doc, i, found)
    else if |found| == total then Compose(doc)
    else Done(Failed(PartsIncomplete))
  }

  function AfterRemove(doc: Doc, total: int, i: nat): PC {
    if i < total then Remove(doc, i) else ClearBits(doc)
  }

  ghost function Advance(w: World, p: Proc, io: IO): (World, Proc) {
    match p.req
    case Initiate(_, _, _, _, _, _, _) => AdvanceInitiate(w, p, io)
    case UploadPart(_, _, _, _, _) => AdvancePart(w, p, io)
    case Complete(_, _, _) => AdvanceComplete(w, p, io)
    case DeleteDoc(_, _) => AdvanceDelete(w, p, io)
  }

  ghost function AdvanceInitiate(w: World, p: Proc, io: IO): (World, Proc)
    requires p.req.Initiate?
  {
    var r := p.req;
    match p.pc
    case Start =>
      if r.size > w.limits.maxFileSize then Fail(w, p, FileTooLarge)
      else if FileExt(r.name) !in w.limits.allowedExts then Fail(w, p, UnsupportedType)
      else if r.total <= 0 || r.md5 == "" then Fail(w, p, BadRequest)
      else if !io.fault.Reported() then Fail(w, p, StoreFault)
      else if r.tag == "" then
        var primary := Tenancy.PrimaryTag(w.tenancy.db.members, r.owner);
        if primary.None? then Fail(w, p, BadRequest) else (w, p.(pc := Lookup(primary.value)))
      else if Tenancy.IsMember(w.tenancy.db.members, r.owner, r.tag) then (w, p.(pc := Lookup(r.tag)))
      else Fail(w, p, Forbidden)
    case Lookup(tag) =>
      var found := FindLive(w.rows, r.md5, r.owner);
      if found.None? then Next(w, p, io, Insert(tag))
      else if found.value.row.merged then Next(w, p, io, Done(Initiated(found.value.id, true, [])))
      else Next(w, p, io, Resume(found.value.id, 0, []))
    case Resume(id, i, found) =>
      var found' := if i in BitsOf(w.bits, r.md5, r.owner) then found + [i] else found;
      Next(w, p, io, if i + 1 < r.total then Resume(id, i + 1, found') else Done(Initiated(id, false, found')))
    case Insert(tag) =>
      var row := Row(File(r.md5, r.owner, r.name, FileExt(r.name), tag, r.public), io.now, r.size, false, None);
      if io.fault.FailBefore? || !FitsColumns(row.file) then Fail(w, p, StoreFault)
      else if io.newId in w.rows || Taken(w.rows, r.md5, r.owner) then Fail(w, p, Conflict)
      else Next(w.(rows := w.rows[io.newId := row]), p, io, Done(Initiated(io.newId, false, [])))
    case _ => (w, p)
  }

  /** ownedDoc: a live row of this owner, or NotFound. */
  predicate Owned(rows: map<int, Row>, id: int, owner: int) {
    id in rows && rows[id].deletedAt.None? && rows[id].file.owner == owner
  }

  function AdvancePart(w: World, p: Proc, io: IO): (World, Proc)
    requires p.req.UploadPart?
  {
    var r := p.req;
    match p.pc
    case Start =>
      if !io.fault.Reported() then Fail(w, p, StoreFault)
      else if !Owned(w.rows, r.id, r.owner) then Fail(w, p, NotFound)
      else if w.rows[r.id].merged then (w, p.(pc := Done(Uploaded)))
      else if r.index < 0 || r.index >= r.total then Fail(w, p, BadRequest)
      else (w, p.(pc := Put(Doc(r.id, w.rows[r.id]))))
    case Put(doc) =>
      var w' := if io.fault.Applied() then w.(objects := w.objects[PartKey(doc.row.file.md5, r.index) := r.content])
        else w;
      Next(w', p, io, Mark(doc))
    case Mark(doc) =>
      var w' := if io.fault.Applied() && r.index >= 0
                then w.(bits := WithBit(w.bits, doc.row.file.md5, r.owner, r.index)) else w;
      Next(w', p, io, Done(Uploaded))
    case _ => (w, p)
  }

  function AdvanceComplete(w: World, p: Proc, io: IO): (World, Proc)
    requires p.req.Complete?
  {
    var r := p.req;
    match p.pc
    case Start =>
      if !io.fault.Reported() then Fail(w, p, StoreFault)
      else if !Owned(w.rows, r.id, r.owner) then Fail(w, p, NotFound)
      else if w.rows[r.id].merged then (w, p.(pc := Done(Completed(Doc(r.id, w.rows[r.id])))))
      else if r.total < 0 then (w, p.(pc := Done(Panicked)))  // make([]int, 0, totalParts)
      else (w, p.(pc := AfterCheck(Doc(r.id, w.rows[r.id]), r.total, 0, [])))
    case Check(doc, i, found) =>
      var found' := if i in BitsOf(w.bits, doc.row.file.md5, r.owner) then found + [i] else found;
      Next(w, p, io, AfterCheck(doc, r.total, i + 1, found'))
    case Compose(doc) =>
      if io.fault.FailBefore? then Fail(w, p, StoreFault)
      else if !CanCompose(w.objects, doc.row.file.md5, r.total) then Fail(w, p, SourceMissing)
      else
        var file := Joined(w.objects, doc.row.file.md5, r.total);
        Next(w.(objects := w.objects[MergedKey(doc.row.file.md5, doc.row.file.name) := file]), p, io,
          SetMerged(doc, |file|))
    case SetMerged(doc, size) =>
      var w' := if io.fault.Applied() then w.(rows := Merge(w.rows, doc.id, size)) else w;
      Next(w', p, io, AfterRemove(doc.(row := doc.row.(merged := true, size := size)), r.total, 0))
    case Remove(doc, i) =>
      var w' := if io.fault.Applied() then w.(objects := w.objects - {PartKey(doc.row.file.md5, i)}) else w;
      (w', p.(pc := if io.fault.Reported() then AfterRemove(doc, r.total, i + 1) else ClearBits(doc)))
    case ClearBits(doc) =>
      var w' := if io.fault.Applied() then w.(bits := w.bits - {ProgressKey(doc.row.file.md5, r.owner)}) else w;
      (w', p.(pc := Publish(doc)))
    case Publish(doc) =>
      var w' := if io.fault.Applied() then w.(log := w.log + [IngestOf(doc)]) else w;
      (w', p.(pc := Done(if io.fault.Reported() then Completed(doc) else Unpublished(doc))))
    case _ => (w, p)
  }

  function AdvanceDelete(w: World, p: Proc, io: IO): (World, Proc)
    requires p.req.DeleteDoc?
  {
    var r := p.req;
    match p.pc
    case Start =>
      if !io.fault.Reported() then Fail(w, p, StoreFault)
      else if r.id !in w.rows || w.rows[r.id].file.owner != r.owner then Fail(w, p, NotFound)
      else (w, p.(pc := SoftDelete(Doc(r.id, w.rows[r.id]))))
    case SoftDelete(doc) =>
      var w' := if io.fault.Applied() then w.(rows := Erase(w.rows, doc.id, io.now)) else w;
      Next(w', p, io, PublishDelete(doc))
    case PublishDelete(doc) =>
      var w' := if io.fault.Applied() then w.(log := w.log + [DeleteOf(doc)]) else w;
      Next(w', p, io, Done(Deleted))
    case _ => (w, p)
  }
}
