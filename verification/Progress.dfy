// What a set progress bit is worth: the object puts of a part precede its bit, parts are only
// removed after a merge, and part keys carry no owner although bitmap keys do.
module Progress {
  import opened Prelude
  import opened KeyCodec
  import opened Upload
  import opened Interleaving

  ghost predicate AnyMerged(rows: map<int, Row>, md5: string) {
    exists id :: id in rows && rows[id].file.md5 == md5 && rows[id].merged
  }

  predicate HasPart(objects: map<string, Bytes>, md5: string, i: int) {
    PartKey(md5, i) in objects
  }

  /** Until some row of an md5 is merged, every set bit of that md5 has its part object. */
  ghost predicate BitsBacked(w: World) {
    forall md5, owner, i :: i in BitsOf(w.bits, md5, owner) && !AnyMerged(w.rows, md5) ==> HasPart(w.objects, md5, i)
  }

  ghost predicate ProcBacked(w: World, p: Proc) {
    match p.pc
    case Mark(doc) => !AnyMerged(w.rows, doc.row.file.md5) && p.req.UploadPart? ==>
      HasPart(w.objects, doc.row.file.md5, p.req.index)
    case Check(doc, i, found) =>
      && Increasing(found, i) && (p.req.Complete? ==> i < p.req.total)
      && (!AnyMerged(w.rows, doc.row.file.md5) ==> forall k :: 0 <= k < |found| ==>
         HasPart(w.objects, doc.row.file.md5, found[k]))
    case Compose(doc) =>
      p.req.Complete? && !AnyMerged(w.rows, doc.row.file.md5) ==>
        p.req.total >= 0 && forall j :: 0 <= j < p.req.total ==> HasPart(w.objects, doc.row.file.md5, j)
    case _ => true
  }

  lemma BitsAfterMark(bits: map<string, set<nat>>, md5: string, owner: int, i: nat, m: string, o: int)
    ensures BitsOf(WithBit(bits, md5, owner, i), m, o)
         == BitsOf(bits, m, o) + (if m == md5 && o == owner then {i} else {})
  {
    if ProgressKey(m, o) == ProgressKey(md5, owner) { ProgressKeyInjective(m, o, md5, owner); }
  }

  /** No step takes away a part of an md5 that has no merged row yet. */
  lemma PartsStay(w: World, p: Proc, io: IO, md5: string, j: int)
    requires WorldOk(w) && ProcOk(w, p)
    requires !AnyMerged(w.rows, md5) && HasPart(w.objects, md5, j)
    ensures HasPart(Advance(w, p, io).0.objects, md5, j)
  {
    if p.req.Complete? && p.pc.Remove? {
      if PartKey(md5, j) == PartKey(p.pc.doc.row.file.md5, p.pc.i) {
        PartKeyInjective(md5, j, p.pc.doc.row.file.md5, p.pc.i);
      }
    }
  }

  lemma NotMergedBefore(w: World, w': World, md5: string)
    requires Grows(w, w') && !AnyMerged(w'.rows, md5)
    ensures !AnyMerged(w.rows, md5)
  {}

  /** Bits only appear where the marking call of a part says so. */
  lemma NewBitsAreMarked(w: World, p: Proc, io: IO, m: string, o: int, i: nat)
    requires i in BitsOf(Advance(w, p, io).0.bits, m, o) && i !in BitsOf(w.bits, m, o)
    ensures p.req.UploadPart? && p.pc.Mark? && m == p.pc.doc.row.file.md5 && i == p.req.index
  {
    if p.req.UploadPart? && p.pc.Mark? && p.req.index >= 0 {
      BitsAfterMark(w.bits, p.pc.doc.row.file.md5, p.req.owner, p.req.index, m, o);
    }
  }

  lemma AdvanceKeepsBits(w: World, p: Proc, io: IO)
    requires WorldOk(w) && ProcOk(w, p) && BitsBacked(w) && ProcBacked(w, p)
    ensures BitsBacked(Advance(w, p, io).0)
  {
    AdvanceKeepsOk(w, p, io);
    var w' := Advance(w, p, io).0;
    forall m, o, i | i in BitsOf(w'.bits, m, o) && !AnyMerged(w'.rows, m) ensures HasPart(w'.objects, m, i) {
      NotMergedBefore(w, w', m);
      if i !in BitsOf(w.bits, m, o) { NewBitsAreMarked(w, p, io, m, o, i); }
      PartsStay(w, p, io, m, i);
    }
  }

  /** As many distinct indices below total as total means all of them. */
  lemma AllFoundMeansAllParts(objects: map<string, Bytes>, md5: string, found: seq<nat>, total: nat)
    requires Increasing(found, total) && |found| == total
    requires forall k :: 0 <= k < |found| ==> HasPart(objects, md5, found[k])
    ensures forall j :: 0 <= j < total ==> HasPart(objects, md5, j)
  {
    IncreasingIsFullAtLength(found, total);
    forall j | 0 <= j < total ensures HasPart(objects, md5, j) {
      var n: nat := j;
      assert n in found;
    }
  }

  lemma CheckKeepsBacked(w: World, p: Proc, io: IO)
    requires BitsBacked(w) && ProcBacked(w, p) && p.req.Complete? && (p.pc.Start? || p.pc.Check?)
    ensures ProcBacked(w, AdvanceComplete(w, p, io).1)
  {
    var q := AdvanceComplete(w, p, io).1;
    if p.pc.Check? && q.pc.Compose? {
      var md5 := p.pc.doc.row.file.md5;
      var found := if p.pc.i in BitsOf(w.bits, md5, p.req.owner) then p.pc.found + [p.pc.i] else p.pc.found;
      if !AnyMerged(w.rows, md5) { AllFoundMeansAllParts(w.objects, md5, found, p.req.total); }
    }
  }

  lemma AdvanceKeepsProcBacked(w: World, p: Proc, io: IO)
    requires WorldOk(w) && ProcOk(w, p) && BitsBacked(w) && ProcBacked(w, p)
    ensures ProcBacked(Advance(w, p, io).0, Advance(w, p, io).1)
  {
    if p.req.Complete? && (p.pc.Start? || p.pc.Check?) { CheckKeepsBacked(w, p, io); }
  }

  /** Other requests only look at parts, which stay, and at merged rows, which stay merged. */
  lemma ProcBackedIsStable(w: World, p: Proc, io: IO, q: Proc)
    requires WorldOk(w) && ProcOk(w, p) && ProcOk(w, q) && ProcBacked(w, q)
    ensures ProcBacked(Advance(w, p, io).0, q)
  {
    AdvanceKeepsOk(w, p, io);
    var w' := Advance(w, p, io).0;
    if DocOf(q.pc).Some? && !AnyMerged(w'.rows, DocOf(q.pc).value.row.file.md5) {
      var md5 := DocOf(q.pc).value.row.file.md5;
      NotMergedBefore(w, w', md5);
      forall j | HasPart(w.objects, md5, j) ensures HasPart(w'.objects, md5, j) { PartsStay(w, p, io, md5, j); }
    }
  }

  ghost predicate Backed(s: Sys) {
    SysOk(s) && BitsBacked(s.w) && forall pid :: pid in s.procs ==> ProcBacked(s.w, s.procs[pid])
  }

  lemma ApplyKeepsBacked(s: Sys, step: Step)
    requires Backed(s)
    ensures Backed(Apply(s, step))
  {
    ApplyKeepsOk(s, step);
    var s' := Apply(s, step);
    if step.Exec? && step.pid in s.procs {
      var p := s.procs[step.pid];
      AdvanceKeepsBits(s.w, p, step.io);
      AdvanceKeepsProcBacked(s.w, p, step.io);
      forall pid | pid in s.procs && pid != step.pid ensures ProcBacked(s'.w, s'.procs[pid]) {
        ProcBackedIsStable(s.w, p, step.io, s.procs[pid]);
      }
    } else {
      forall m, o ensures BitsOf(s'.w.bits, m, o) <= BitsOf(s.w.bits, m, o) {}
    }
  }

  lemma {:induction false} AlwaysBacked(limits: Limits, steps: seq<Step>)
    ensures Backed(After(limits, steps))
  {
    if steps != [] {
      AlwaysBacked(limits, steps[..|steps| - 1]);
      ApplyKeepsBacked(After(limits, steps[..|steps| - 1]), steps[|steps| - 1]);
    }
  }

  ghost predicate OtherOwnerMerged(rows: map<int, Row>, id: int)
    requires id in rows
  {
    exists other :: other in rows && rows[other].file.md5 == rows[id].file.md5
      && rows[other].file.owner != rows[id].file.owner && rows[other].merged
  }

  /** A set bit of a row still uploading means its part is stored, unless another owner's row of
      the same md5 has been merged (that merge removes the shared parts). */
  lemma SetBitMeansStoredPart(limits: Limits, steps: seq<Step>, id: int, i: nat)
    requires var w := After(limits, steps).w;
      id in w.rows && !w.rows[id].merged && i in BitsOf(w.bits, w.rows[id].file.md5, w.rows[id].file.owner)
    ensures var w := After(limits, steps).w;
      HasPart(w.objects, w.rows[id].file.md5, i) || OtherOwnerMerged(w.rows, id)
  {
    AlwaysBacked(limits, steps);
  }

  /** A CompleteUpload that has found all bits and whose row is still uploading has every source
      of its compose call, under the same proviso; it then fails only by a fault of the store or
      for an empty part list. */
  lemma ComposeHasItsSources(limits: Limits, steps: seq<Step>, pid: nat)
    requires var s := After(limits, steps);
      pid in s.procs && s.procs[pid].req.Complete? && s.procs[pid].pc.Compose?
      && s.procs[pid].req.id in s.w.rows && !s.w.rows[s.procs[pid].req.id].merged
    ensures var s := After(limits, steps); var p := s.procs[pid];
      OtherOwnerMerged(s.w.rows, p.req.id)
      || forall io: IO :: Advance(s.w, p, io).1.pc.SetMerged? <==> io.fault.NoFault? && p.req.total > 0
  {
    AlwaysBacked(limits, steps);
    var s := After(limits, steps);
    var p := s.procs[pid];
    if !OtherOwnerMerged(s.w.rows, p.req.id) {
      assert !AnyMerged(s.w.rows, p.pc.doc.row.file.md5);
      assert HasParts(s.w.objects, p.pc.doc.row.file.md5, p.req.total) by {
        forall j: nat | j < p.req.total ensures PartKey(p.pc.doc.row.file.md5, j) in s.w.objects {
          assert HasPart(s.w.objects, p.pc.doc.row.file.md5, j);
        }
      }
    }
  }
}
