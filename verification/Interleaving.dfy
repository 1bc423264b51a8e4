// Runs of the upload system: any number of requests, interleaved store call by store call with
// each other, with expiring bitmaps and with changes to the tenant tables. A run is a sequence of
// steps; a step that is not possible changes nothing, so every sequence is a run.
module Interleaving {
  import opened Prelude
  import opened KeyCodec
  import opened Upload
  import Tenancy

  /** readers: which CompleteUpload calls have read which row while it was still uploading.
      writers: which call wrote each entry of the event log. Both only record history. */
  datatype Sys = Sys(w: World, procs: map<nat, Proc>, readers: set<(nat, int)>, writers: seq<nat>)

  datatype Step =
    | Spawn(pid: nat, req: Request)
    | Exec(pid: nat, io: IO)
    | Expire(key: string)
    | Tenant(step: Tenancy.Step)

  function Empty(limits: Limits): Sys {
    Sys(World(limits, Tenancy.INITIAL, map[], map[], map[], []), map[], {}, [])
  }

  ghost function Apply(s: Sys, step: Step): Sys {
    match step
    case Spawn(pid, req) => if pid in s.procs then s else s.(procs := s.procs[pid := Proc(req, Start)])
    case Exec(pid, io) => if pid in s.procs then ExecOne(s, pid, io) else s
    case Expire(key) => s.(w := s.w.(bits := s.w.bits - {key}))
    case Tenant(step) => s.(w := s.w.(tenancy := Tenancy.Apply(s.w.tenancy, step)))
  }

  ghost function ExecOne(s: Sys, pid: nat, io: IO): Sys
    requires pid in s.procs
  {
    var p := s.procs[pid];
    var (w, p') := Advance(s.w, p, io);
    Sys(w, s.procs[pid := p'],
        if p.req.Complete? && p.pc.Start? && (p'.pc.Check? || p'.pc.Compose?)
        then s.readers + {(pid, p.req.id)} else s.readers,
        if |w.log| > |s.w.log| then s.writers + [pid] else s.writers)
  }

  ghost function AfterFrom(s: Sys, steps: seq<Step>): Sys {
    if steps == [] then s else Apply(AfterFrom(s, steps[..|steps| - 1]), steps[|steps| - 1])
  }

  ghost function After(limits: Limits, steps: seq<Step>): Sys { AfterFrom(Empty(limits), steps) }

  lemma {:induction false} AfterFromAppend(s: Sys, a: seq<Step>, b: seq<Step>)
    ensures AfterFrom(s, a + b) == AfterFrom(AfterFrom(s, a), b)
  {
    if b == [] {
      assert a + b == a;
    } else {
      AfterFromAppend(s, a, b[..|b| - 1]);
      assert (a + b)[..|a + b| - 1] == a + b[..|b| - 1];
    }
  }

  // ---- what every step keeps ----

  /** How stores may change in time: rows never vanish or change identity, a merged row stays
      merged, a deletion time is written once, memberships and events only accumulate. */
  ghost predicate Grows(w: World, w': World) {
    && (forall id :: id in w.rows ==>
          && id in w'.rows && w'.rows[id].file == w.rows[id].file
          && (w.rows[id].merged ==> w'.rows[id].merged)
          && (w.rows[id].deletedAt.Some? ==> w'.rows[id].deletedAt == w.rows[id].deletedAt))
    && w.log <= w'.log
    && w.limits == w'.limits
    && (forall user, tag :: Tenancy.IsMember(w.tenancy.db.members, user, tag) ==>
          Tenancy.IsMember(w'.tenancy.db.members, user, tag))
  }

  /** An event tells the truth about its row, field by field. */
  ghost predicate EventTrue(rows: map<int, Row>, e: Event) {
    && e.id in rows
    && var f := rows[e.id].file;
       match e
       case Ingest(id, file, key) => rows[id].merged && file == f && key == "merged/" + f.md5 + "/" + f.name
       case Delete(id, md5, name, key) =>
         rows[id].deletedAt.Some? && md5 == f.md5 && name == f.name && key == "merged/" + f.md5 + "/" + f.name
  }

  lemma OwnEventsAreTrue(rows: map<int, Row>, doc: Doc)
    requires doc.id in rows && rows[doc.id].file == doc.row.file
    ensures rows[doc.id].merged ==> EventTrue(rows, IngestOf(doc))
    ensures rows[doc.id].deletedAt.Some? ==> EventTrue(rows, DeleteOf(doc))
  {
    KeysAreSpelled(doc.row.file.md5, 0, doc.row.file.name, 0);
  }

  ghost predicate WorldOk(w: World) {
    && UniquePairs(w.rows)
    && (forall k :: 0 <= k < |w.log| ==> EventTrue(w.rows, w.log[k]))
    && (forall id :: id in w.rows ==>
       Tenancy.IsMember(w.tenancy.db.members, w.rows[id].file.owner, w.rows[id].file.tenant))
  }

  function DocOf(pc: PC): Option<Doc> {
    match pc
    case Put(doc) => Some(doc)
    case Mark(doc) => Some(doc)
    case Check(doc, _, _) => Some(doc)
    case Compose(doc) => Some(doc)
    case SetMerged(doc, _) => Some(doc)
    case Remove(doc, _) => Some(doc)
    case ClearBits(doc) => Some(doc)
    case Publish(doc) => Some(doc)
    case SoftDelete(doc) => Some(doc)
    case PublishDelete(doc) => Some(doc)
    case _ => None
  }

  predicate PastMerge(pc: PC) { pc.Remove? || pc.ClearBits? || pc.Publish? }

  ghost predicate ProcOk(w: World, p: Proc) {
    && (match DocOf(p.pc)
        case None => true
        case Some(doc) =>
          && doc.id in w.rows && w.rows[doc.id].file == doc.row.file
          && !p.req.Initiate? && p.req.id == doc.id && p.req.owner == doc.row.file.owner
          && (PastMerge(p.pc) ==> w.rows[doc.id].merged)
          && (p.pc.PublishDelete? ==> w.rows[doc.id].deletedAt.Some?))
    && (p.req.Initiate? && (p.pc.Lookup? || p.pc.Insert?) ==>
          Tenancy.IsMember(w.tenancy.db.members, p.req.owner, p.pc.tag))
  }

  lemma AdvanceKeepsRequest(w: World, p: Proc, io: IO)
    ensures Advance(w, p, io).1.req == p.req
  {}

  // The world changes in one of five ways.

  lemma OtherStoresKeepOk(w: World, w': World)
    requires WorldOk(w) && w'.rows == w.rows && w'.log == w.log && w'.limits == w.limits && w'.tenancy == w.tenancy
    ensures Grows(w, w') && WorldOk(w')
  {}

  lemma LogKeepsOk(w: World, e: Event)
    requires WorldOk(w) && EventTrue(w.rows, e)
    ensures Grows(w, w.(log := w.log + [e])) && WorldOk(w.(log := w.log + [e]))
  {}

  lemma MergeKeepsOk(w: World, id: int, size: int)
    requires WorldOk(w)
    ensures Grows(w, w.(rows := Merge(w.rows, id, size))) && WorldOk(w.(rows := Merge(w.rows, id, size)))
  {}

  lemma EraseKeepsOk(w: World, id: int, now: int)
    requires WorldOk(w)
    ensures Grows(w, w.(rows := Erase(w.rows, id, now))) && WorldOk(w.(rows := Erase(w.rows, id, now)))
  {}

  lemma InsertKeepsOk(w: World, id: int, row: Row)
    requires WorldOk(w) && id !in w.rows && !Taken(w.rows, row.file.md5, row.file.owner)
    requires Tenancy.IsMember(w.tenancy.db.members, row.file.owner, row.file.tenant)
    ensures Grows(w, w.(rows := w.rows[id := row])) && WorldOk(w.(rows := w.rows[id := row]))
  {}

  lemma InitiateKeepsWorldOk(w: World, p: Proc, io: IO)
    requires WorldOk(w) && ProcOk(w, p) && p.req.Initiate?
    ensures var w' := AdvanceInitiate(w, p, io).0; Grows(w, w') && WorldOk(w')
  {
    var w' := AdvanceInitiate(w, p, io).0;
    if w'.rows == w.rows { OtherStoresKeepOk(w, w'); } else { InsertKeepsOk(w, io.newId, w'.rows[io.newId]); }
  }

  lemma InitiateKeepsProcOk(w: World, p: Proc, io: IO)
    requires ProcOk(w, p) && p.req.Initiate?
    ensures var (w', p') := AdvanceInitiate(w, p, io); ProcOk(w', p')
  {
    if p.pc.Start? {
      var primary := Tenancy.PrimaryTag(w.tenancy.db.members, p.req.owner);
      if primary.Some? { assert Tenancy.IsMember(w.tenancy.db.members, p.req.owner, primary.value); }
    }
  }

  lemma PartKeepsOk(w: World, p: Proc, io: IO)
    requires WorldOk(w) && ProcOk(w, p) && p.req.UploadPart?
    ensures var (w', p') := AdvancePart(w, p, io); Grows(w, w') && WorldOk(w') && ProcOk(w', p')
  {
    OtherStoresKeepOk(w, AdvancePart(w, p, io).0);
  }

  lemma CompleteKeepsWorldOk(w: World, p: Proc, io: IO)
    requires WorldOk(w) && ProcOk(w, p) && p.req.Complete?
    ensures var w' := AdvanceComplete(w, p, io).0; Grows(w, w') && WorldOk(w')
  {
    if p.pc.SetMerged? { MergeKeepsOk(w, p.pc.doc.id, p.pc.size); }
    else if p.pc.Publish? {
      OwnEventsAreTrue(w.rows, p.pc.doc);
      LogKeepsOk(w, IngestOf(p.pc.doc));
    }
    else { OtherStoresKeepOk(w, AdvanceComplete(w, p, io).0); }
  }

  lemma CompleteKeepsProcOk(w: World, p: Proc, io: IO)
    requires ProcOk(w, p) && p.req.Complete?
    ensures var (w', p') := AdvanceComplete(w, p, io); ProcOk(w', p')
  {}

  lemma DeleteKeepsWorldOk(w: World, p: Proc, io: IO)
    requires WorldOk(w) && ProcOk(w, p) && p.req.DeleteDoc?
    ensures var w' := AdvanceDelete(w, p, io).0; Grows(w, w') && WorldOk(w')
  {
    if p.pc.SoftDelete? {
      EraseKeepsOk(w, p.pc.doc.id, io.now);
    } else if p.pc.PublishDelete? {
      OwnEventsAreTrue(w.rows, p.pc.doc);
      LogKeepsOk(w, DeleteOf(p.pc.doc));
    }
  }

  lemma DeleteKeepsProcOk(w: World, p: Proc, io: IO)
    requires ProcOk(w, p) && p.req.DeleteDoc?
    ensures var (w', p') := AdvanceDelete(w, p, io); ProcOk(w', p')
  {}

  lemma AdvanceKeepsOk(w: World, p: Proc, io: IO)
    requires WorldOk(w) && ProcOk(w, p)
    ensures var (w', p') := Advance(w, p, io); Grows(w, w') && WorldOk(w') && ProcOk(w', p')
  {
    match p.req
    case Initiate(_, _, _, _, _, _, _) => InitiateKeepsWorldOk(w, p, io); InitiateKeepsProcOk(w, p, io);
    case UploadPart(_, _, _, _, _) => PartKeepsOk(w, p, io);
    case Complete(_, _, _) => CompleteKeepsWorldOk(w, p, io); CompleteKeepsProcOk(w, p, io);
    case DeleteDoc(_, _) => DeleteKeepsWorldOk(w, p, io); DeleteKeepsProcOk(w, p, io);
  }

  lemma ProcOkIsStable(w: World, w': World, p: Proc)
    requires Grows(w, w') && ProcOk(w, p)
    ensures ProcOk(w', p)
  {}

  ghost predicate SysOk(s: Sys) {
    WorldOk(s.w) && forall pid :: pid in s.procs ==> ProcOk(s.w, s.procs[pid])
  }

  lemma ApplyKeepsOk(s: Sys, step: Step)
    requires SysOk(s)
    ensures SysOk(Apply(s, step)) && Grows(s.w, Apply(s, step).w)
  {
    var s' := Apply(s, step);
    if step.Exec? && step.pid in s.procs {
      AdvanceKeepsOk(s.w, s.procs[step.pid], step.io);
    } else if step.Tenant? {
      forall user, tag | Tenancy.IsMember(s.w.tenancy.db.members, user, tag)
        ensures Tenancy.IsMember(s'.w.tenancy.db.members, user, tag)
      {
        Tenancy.MembershipsPersist(s.w.tenancy, step.step, user, tag);
      }
    }
    forall pid | pid in s.procs && !(step.Exec? && pid == step.pid) ensures ProcOk(s'.w, s'.procs[pid]) {
      ProcOkIsStable(s.w, s'.w, s.procs[pid]);
    }
  }

  lemma {:induction false} AfterFromKeepsOk(s: Sys, steps: seq<Step>)
    requires SysOk(s)
    ensures SysOk(AfterFrom(s, steps)) && Grows(s.w, AfterFrom(s, steps).w)
  {
    if steps != [] {
      AfterFromKeepsOk(s, steps[..|steps| - 1]);
      ApplyKeepsOk(AfterFrom(s, steps[..|steps| - 1]), steps[|steps| - 1]);
    }
  }

  lemma AlwaysOk(limits: Limits, steps: seq<Step>)
    ensures SysOk(After(limits, steps))
  {
    AfterFromKeepsOk(Empty(limits), steps);
  }

  // ---- causality and row history ----

  /** Whatever interleaves and fails: an ingest event describes a row that was already merged, a
      delete event a row already soft-deleted, and at every later point this is still so. */
  lemma EventsAreCausedAndStayTrue(limits: Limits, steps: seq<Step>, more: seq<Step>, k: nat)
    requires k < |After(limits, steps).w.log|
    ensures var now, later := After(limits, steps).w, After(limits, steps + more).w;
      EventTrue(now.rows, now.log[k]) && k < |later.log| && later.log[k] == now.log[k]
        && EventTrue(later.rows, now.log[k])
  {
    AlwaysOk(limits, steps);
    AfterFromKeepsOk(After(limits, steps), more);
    AfterFromAppend(Empty(limits), steps, more);
  }

  /** No two rows share (md5, owner), soft-deleted rows included; merged is never undone; the
      deletion time is written once, however often a document is deleted. */
  lemma RowHistory(limits: Limits, steps: seq<Step>, more: seq<Step>, id: int)
    requires id in After(limits, steps).w.rows
    ensures var now, later := After(limits, steps).w.rows, After(limits, steps + more).w.rows;
      && UniquePairs(later) && id in later && later[id].file == now[id].file
      && (now[id].merged ==> later[id].merged)
      && (now[id].deletedAt.Some? ==> later[id].deletedAt == now[id].deletedAt)
  {
    AlwaysOk(limits, steps);
    AfterFromKeepsOk(After(limits, steps), more);
    AfterFromAppend(Empty(limits), steps, more);
  }

  /** Every document lies in a tenant its owner belongs to, and the owner still belongs to it. */
  lemma TenantPlacement(limits: Limits, steps: seq<Step>, id: int)
    requires id in After(limits, steps).w.rows
    ensures var w := After(limits, steps).w;
      Tenancy.IsMember(w.tenancy.db.members, w.rows[id].file.owner, w.rows[id].file.tenant)
  {
    AlwaysOk(limits, steps);
  }

  // ---- a soft-deleted pair is closed for good ----

  ghost predicate PairDeleted(rows: map<int, Row>, id: int, md5: string, owner: int) {
    id in rows && rows[id].file.md5 == md5 && rows[id].file.owner == owner && rows[id].deletedAt.Some?
  }

  /** An InitiateUpload for a closed pair can only be on its way to an error. */
  predicate Hopeless(p: Proc) {
    p.pc.Start? || p.pc.Lookup? || p.pc.Insert? || (p.pc.Done? && p.pc.reply.Failed?)
  }

  lemma HopelessStaysHopeless(w: World, p: Proc, io: IO, id: int)
    requires WorldOk(w) && p.req.Initiate? && PairDeleted(w.rows, id, p.req.md5, p.req.owner) && Hopeless(p)
    ensures Hopeless(AdvanceInitiate(w, p, io).1)
  {
    assert FindLive(w.rows, p.req.md5, p.req.owner).None?;
    assert Taken(w.rows, p.req.md5, p.req.owner);
  }

  predicate IsInitiateFor(req: Request, md5: string, owner: int) {
    req.Initiate? && req.md5 == md5 && req.owner == owner
  }

  /** The pair is soft-deleted, and if the process is an InitiateUpload for it, it is hopeless. */
  ghost predicate ClosedTo(s: Sys, id: int, md5: string, owner: int, pid: nat) {
    && PairDeleted(s.w.rows, id, md5, owner)
    && (pid in s.procs && IsInitiateFor(s.procs[pid].req, md5, owner) ==> Hopeless(s.procs[pid]))
  }

  lemma ApplyKeepsClosedTo(s: Sys, step: Step, id: int, md5: string, owner: int, pid: nat)
    requires SysOk(s) && ClosedTo(s, id, md5, owner, pid)
    ensures ClosedTo(Apply(s, step), id, md5, owner, pid)
  {
    ApplyKeepsOk(s, step);
    if step.Exec? && step.pid == pid && pid in s.procs {
      var p := s.procs[pid];
      AdvanceKeepsRequest(s.w, p, step.io);
      if IsInitiateFor(p.req, md5, owner) { HopelessStaysHopeless(s.w, p, step.io, id); }
    }
  }

  lemma {:induction false} DeletedPairStaysClosed(s: Sys, id: int, md5: string, owner: int, pid: nat, more: seq<Step>)
    requires SysOk(s) && PairDeleted(s.w.rows, id, md5, owner) && pid !in s.procs
    ensures ClosedTo(AfterFrom(s, more), id, md5, owner, pid)
  {
    if more != [] {
      DeletedPairStaysClosed(s, id, md5, owner, pid, more[..|more| - 1]);
      AfterFromKeepsOk(s, more[..|more| - 1]);
      ApplyKeepsClosedTo(AfterFrom(s, more[..|more| - 1]), more[|more| - 1], id, md5, owner, pid);
    }
  }

  /** Once the row of a pair is soft-deleted, no InitiateUpload that begins later for this pair
      ever succeeds: the lookup hides the row and the unique key still counts it. */
  lemma NoInitiateAfterDelete(limits: Limits, steps: seq<Step>, more: seq<Step>, id: int, pid: nat)
    requires var s := After(limits, steps); id in s.w.rows && s.w.rows[id].deletedAt.Some? && pid !in s.procs
    ensures var s, t := After(limits, steps), After(limits, steps + more);
      pid in t.procs ==> var p := t.procs[pid];
        IsInitiateFor(p.req, s.w.rows[id].file.md5, s.w.rows[id].file.owner) && p.pc.Done? ==> p.pc.reply.Failed?
  {
    AlwaysOk(limits, steps);
    var s := After(limits, steps);
    DeletedPairStaysClosed(s, id, s.w.rows[id].file.md5, s.w.rows[id].file.owner, pid, more);
    AfterFromAppend(Empty(limits), steps, more);
  }

  // ---- and so is a soft-deleted document ----

  predicate IsUploadTo(req: Request, id: int) {
    (req.UploadPart? || req.Complete?) && req.id == id
  }

  /** A request that has done nothing, and nothing can come of it. */
  predicate Refused(p: Proc) {
    p.pc.Start? || p.pc == Done(Failed(NotFound)) || p.pc == Done(Failed(StoreFault))
  }

  ghost predicate IsDeleted(rows: map<int, Row>, id: int) { id in rows && rows[id].deletedAt.Some? }

  lemma UploadToDeletedIsRefused(w: World, p: Proc, io: IO, id: int)
    requires IsDeleted(w.rows, id) && IsUploadTo(p.req, id) && Refused(p)
    ensures Refused(Advance(w, p, io).1) && Advance(w, p, io).0 == w
  {}

  ghost predicate ClosedUploads(s: Sys, id: int, pid: nat) {
    IsDeleted(s.w.rows, id) && (pid in s.procs && IsUploadTo(s.procs[pid].req, id) ==> Refused(s.procs[pid]))
  }

  lemma ApplyKeepsClosedUploads(s: Sys, step: Step, id: int, pid: nat)
    requires SysOk(s) && ClosedUploads(s, id, pid)
    ensures ClosedUploads(Apply(s, step), id, pid)
  {
    ApplyKeepsOk(s, step);
    if step.Exec? && step.pid == pid && pid in s.procs {
      AdvanceKeepsRequest(s.w, s.procs[pid], step.io);
      if IsUploadTo(s.procs[pid].req, id) { UploadToDeletedIsRefused(s.w, s.procs[pid], step.io, id); }
    }
  }

  lemma {:induction false} DeletedDocumentStaysClosed(s: Sys, id: int, pid: nat, more: seq<Step>)
    requires SysOk(s) && IsDeleted(s.w.rows, id) && pid !in s.procs
    ensures ClosedUploads(AfterFrom(s, more), id, pid)
  {
    if more != [] {
      DeletedDocumentStaysClosed(s, id, pid, more[..|more| - 1]);
      AfterFromKeepsOk(s, more[..|more| - 1]);
      ApplyKeepsClosedUploads(AfterFrom(s, more[..|more| - 1]), more[|more| - 1], id, pid);
    }
  }

  /** Once a row is soft-deleted, no UploadPart or CompleteUpload that begins later for it ever
      succeeds, and none of its calls changes anything: no part, no bit, no merge, no event. */
  lemma NoUploadAfterDelete(limits: Limits, steps: seq<Step>, more: seq<Step>, id: int, pid: nat)
    requires IsDeleted(After(limits, steps).w.rows, id) && pid !in After(limits, steps).procs
    ensures var t := After(limits, steps + more);
      pid in t.procs && IsUploadTo(t.procs[pid].req, id) ==>
        && (t.procs[pid].pc.Done? ==> t.procs[pid].pc.reply.Failed?)
        && forall io: IO :: Advance(t.w, t.procs[pid], io).0 == t.w
  {
    AlwaysOk(limits, steps);
    DeletedDocumentStaysClosed(After(limits, steps), id, pid, more);
    AfterFromAppend(Empty(limits), steps, more);
    var t := After(limits, steps + more);
    if pid in t.procs && IsUploadTo(t.procs[pid].req, id) {
      forall io: IO ensures Advance(t.w, t.procs[pid], io).0 == t.w {
        UploadToDeletedIsRefused(t.w, t.procs[pid], io, id);
      }
    }
  }
}
