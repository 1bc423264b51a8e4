// The merged object is the file: whatever interleaves and fails, if the requests under one md5
// agree on the bytes and the number of the parts, then a merged row has exactly those bytes.
module MergedFile {
  import opened Prelude
  import opened KeyCodec
  import opened Upload
  import opened Interleaving

  function Concat(parts: seq<Bytes>): Bytes {
    if parts == [] then [] else Concat(parts[..|parts| - 1]) + parts[|parts| - 1]
  }

  /** A request on a document of this md5 carries the agreed bytes and the agreed part count. */
  ghost predicate Agrees(p: Proc, md5: string, parts: seq<Bytes>) {
    DocOf(p.pc).Some? && DocOf(p.pc).value.row.file.md5 == md5 ==>
      && (p.req.UploadPart? && 0 <= p.req.index < |parts| ==> p.req.content == parts[p.req.index])
      && (p.req.Complete? ==> p.req.total == |parts|)
  }

  /** No document of another md5 is merged under the same object key. */
  ghost predicate Private(w: World, md5: string, name: string) {
    forall id :: id in w.rows && MergedKey(w.rows[id].file.md5, w.rows[id].file.name) == MergedKey(md5, name) ==>
      w.rows[id].file.md5 == md5
  }

  ghost predicate Agreed(s: Sys, md5: string, name: string, parts: seq<Bytes>) {
    Private(s.w, md5, name) && forall pid :: pid in s.procs ==> Agrees(s.procs[pid], md5, parts)
  }

  // ---- the invariant ----

  ghost predicate PartsRight(objects: map<string, Bytes>, md5: string, parts: seq<Bytes>) {
    forall i :: 0 <= i < |parts| && PartKey(md5, i) in objects ==> objects[PartKey(md5, i)] == parts[i]
  }

  predicate FileStored(objects: map<string, Bytes>, md5: string, name: string, parts: seq<Bytes>) {
    MergedKey(md5, name) in objects && objects[MergedKey(md5, name)] == Concat(parts)
  }

  ghost predicate StoresRight(w: World, md5: string, name: string, parts: seq<Bytes>) {
    && PartsRight(w.objects, md5, parts)
    && (MergedKey(md5, name) in w.objects ==> FileStored(w.objects, md5, name, parts))
    && (forall id :: id in w.rows && w.rows[id].merged && w.rows[id].file.md5 == md5 && w.rows[id].file.name == name ==>
          FileStored(w.objects, md5, name, parts) && w.rows[id].size == |Concat(parts)|)
  }

  ghost predicate SizeRight(w: World, p: Proc, md5: string, name: string, parts: seq<Bytes>) {
    p.pc.SetMerged? && p.pc.doc.row.file.md5 == md5 && p.pc.doc.row.file.name == name ==>
      FileStored(w.objects, md5, name, parts) && p.pc.size == |Concat(parts)|
  }

  lemma {:induction false} JoinedIsConcat(objects: map<string, Bytes>, md5: string, parts: seq<Bytes>, n: nat)
    requires PartsRight(objects, md5, parts) && n <= |parts| && HasParts(objects, md5, n)
    ensures Joined(objects, md5, n) == Concat(parts[..n])
  {
    if n > 0 {
      JoinedIsConcat(objects, md5, parts, n - 1);
      assert parts[..n][..n - 1] == parts[..n - 1];
    }
  }

  /** Object writes of one step, as far as this file is concerned. */
  ghost predicate ObjectsKept(w: World, objects: map<string, Bytes>, md5: string, name: string, parts: seq<Bytes>) {
    && PartsRight(objects, md5, parts)
    && (MergedKey(md5, name) in objects ==> FileStored(objects, md5, name, parts))
    && (MergedKey(md5, name) in w.objects ==> MergedKey(md5, name) in objects)
  }

  lemma PutKeepsObjects(w: World, p: Proc, io: IO, md5: string, name: string, parts: seq<Bytes>)
    requires ProcOk(w, p) && StoresRight(w, md5, name, parts) && Agrees(p, md5, parts) && p.req.UploadPart? && p.pc.Put?
    ensures ObjectsKept(w, AdvancePart(w, p, io).0.objects, md5, name, parts)
  {
    var m := p.pc.doc.row.file.md5;
    PartAndMergedKeysDiffer(m, p.req.index, md5, name);
    forall i | 0 <= i < |parts| && PartKey(md5, i) == PartKey(m, p.req.index) ensures m == md5 && i == p.req.index {
      PartKeyInjective(md5, i, m, p.req.index);
    }
  }

  lemma ComposeKeepsObjects(w: World, p: Proc, io: IO, md5: string, name: string, parts: seq<Bytes>)
    requires ProcOk(w, p) && StoresRight(w, md5, name, parts) && Agrees(p, md5, parts) && Private(w, md5, name)
    requires p.req.Complete? && p.pc.Compose?
    ensures ObjectsKept(w, AdvanceComplete(w, p, io).0.objects, md5, name, parts)
  {
    var f := p.pc.doc.row.file;
    forall i | 0 <= i < |parts| ensures PartKey(md5, i) != MergedKey(f.md5, f.name) {
      PartAndMergedKeysDiffer(md5, i, f.md5, f.name);
    }
    if MergedKey(f.md5, f.name) == MergedKey(md5, name) && CanCompose(w.objects, f.md5, p.req.total) {
      JoinedIsConcat(w.objects, md5, parts, |parts|);
      assert parts[..|parts|] == parts;
    }
  }

  lemma AdvanceKeepsObjects(w: World, p: Proc, io: IO, md5: string, name: string, parts: seq<Bytes>)
    requires WorldOk(w) && ProcOk(w, p) && StoresRight(w, md5, name, parts)
    requires Agrees(p, md5, parts) && Private(w, md5, name)
    ensures ObjectsKept(w, Advance(w, p, io).0.objects, md5, name, parts)
  {
    if p.req.UploadPart? && p.pc.Put? {
      PutKeepsObjects(w, p, io, md5, name, parts);
    } else if p.req.Complete? && p.pc.Compose? {
      ComposeKeepsObjects(w, p, io, md5, name, parts);
    } else if p.req.Complete? && p.pc.Remove? {
      PartAndMergedKeysDiffer(p.pc.doc.row.file.md5, p.pc.i, md5, name);
    }
  }

  /** What a row merged after a step owes its flag and size to. */
  lemma MergedBefore(w: World, p: Proc, io: IO, id: int)
    requires ProcOk(w, p)
    requires var rows := Advance(w, p, io).0.rows; id in rows && rows[id].merged
    ensures var row := Advance(w, p, io).0.rows[id];
      && id in w.rows && w.rows[id].file == row.file
      && ((w.rows[id].merged && w.rows[id].size == row.size)
          || (p.req.Complete? && p.pc.SetMerged? && p.pc.doc.row.file == row.file && p.pc.size == row.size))
  {}

  lemma AdvanceKeepsStores(w: World, p: Proc, io: IO, md5: string, name: string, parts: seq<Bytes>)
    requires WorldOk(w) && ProcOk(w, p) && StoresRight(w, md5, name, parts) && SizeRight(w, p, md5, name, parts)
    requires Agrees(p, md5, parts) && Private(w, md5, name)
    ensures StoresRight(Advance(w, p, io).0, md5, name, parts)
  {
    AdvanceKeepsObjects(w, p, io, md5, name, parts);
    var w' := Advance(w, p, io).0;
    forall id | id in w'.rows && w'.rows[id].merged && w'.rows[id].file.md5 == md5 && w'.rows[id].file.name == name
      ensures FileStored(w'.objects, md5, name, parts) && w'.rows[id].size == |Concat(parts)|
    {
      MergedBefore(w, p, io, id);
    }
  }

  /** A completion gets to MarkMerged from the compose call only, or by staying there. */
  lemma SizeIsComposed(w: World, p: Proc, io: IO)
    requires ProcOk(w, p)
    requires var q := Advance(w, p, io).1; q.pc.SetMerged?
    ensures var q := Advance(w, p, io).1;
      (p.pc.SetMerged? && q == p && Advance(w, p, io).0 == w)
      || (p.req.Complete? && p.pc.Compose? && CanCompose(w.objects, p.pc.doc.row.file.md5, p.req.total)
          && q.pc.doc == p.pc.doc && q.pc.size == |Joined(w.objects, p.pc.doc.row.file.md5, p.req.total)|
          && MergedKey(p.pc.doc.row.file.md5, p.pc.doc.row.file.name) in Advance(w, p, io).0.objects)
  {}

  lemma AdvanceKeepsSize(w: World, p: Proc, io: IO, md5: string, name: string, parts: seq<Bytes>)
    requires WorldOk(w) && ProcOk(w, p) && StoresRight(w, md5, name, parts) && SizeRight(w, p, md5, name, parts)
    requires Agrees(p, md5, parts) && Private(w, md5, name)
    ensures SizeRight(Advance(w, p, io).0, Advance(w, p, io).1, md5, name, parts)
  {
    AdvanceKeepsObjects(w, p, io, md5, name, parts);
    if Advance(w, p, io).1.pc.SetMerged? {
      SizeIsComposed(w, p, io);
      if p.pc.Compose? && p.pc.doc.row.file.md5 == md5 {
        JoinedIsConcat(w.objects, md5, parts, |parts|);
        assert parts[..|parts|] == parts;
      }
    }
  }

  ghost predicate Right(s: Sys, md5: string, name: string, parts: seq<Bytes>) {
    && SysOk(s) && StoresRight(s.w, md5, name, parts)
    && forall pid :: pid in s.procs ==> SizeRight(s.w, s.procs[pid], md5, name, parts)
  }

  lemma ApplyKeepsRight(s: Sys, step: Step, md5: string, name: string, parts: seq<Bytes>)
    requires Right(s, md5, name, parts) && Agreed(s, md5, name, parts)
    ensures Right(Apply(s, step), md5, name, parts)
  {
    ApplyKeepsOk(s, step);
    if step.Exec? && step.pid in s.procs {
      var p := s.procs[step.pid];
      AdvanceKeepsObjects(s.w, p, step.io, md5, name, parts);
      AdvanceKeepsStores(s.w, p, step.io, md5, name, parts);
      AdvanceKeepsSize(s.w, p, step.io, md5, name, parts);
    }
  }

  /** The hypothesis on a run: agreement and privacy of the key in every state before each step. */
  ghost predicate AgreedThroughout(limits: Limits, steps: seq<Step>, md5: string, name: string, parts: seq<Bytes>) {
    forall k :: 0 <= k < |steps| ==> Agreed(After(limits, steps[..k]), md5, name, parts)
  }

  lemma {:induction false} AlwaysRight(limits: Limits, steps: seq<Step>, md5: string, name: string, parts: seq<Bytes>)
    requires AgreedThroughout(limits, steps, md5, name, parts)
    ensures Right(After(limits, steps), md5, name, parts)
  {
    AlwaysOk(limits, steps);
    if steps != [] {
      var front := steps[..|steps| - 1];
      forall k | 0 <= k < |front| ensures Agreed(After(limits, front[..k]), md5, name, parts) {
        assert front[..k] == steps[..k];
      }
      AlwaysRight(limits, front, md5, name, parts);
      ApplyKeepsRight(After(limits, front), steps[|steps| - 1], md5, name, parts);
    }
  }

  /** End to end: under every interleaving, fault and expiry, a merged row of an md5 whose requests
      agree has, under its merged key, exactly the agreed parts in order, and its length as size;
      and every ingest event for it points at that object. */
  lemma MergedObjectIsTheFile(limits: Limits, steps: seq<Step>, md5: string, name: string, parts: seq<Bytes>, id: int)
    requires AgreedThroughout(limits, steps, md5, name, parts)
    requires var w := After(limits, steps).w; id in w.rows && w.rows[id].file.md5 == md5 && w.rows[id].file.name == name
    ensures var w := After(limits, steps).w;
      w.rows[id].merged ==> FileStored(w.objects, md5, name, parts) && w.rows[id].size == |Concat(parts)|
    ensures var w := After(limits, steps).w;
      forall k :: 0 <= k < |w.log| && w.log[k].Ingest? && w.log[k].id == id ==>
        w.log[k].key in w.objects && w.objects[w.log[k].key] == Concat(parts)
  {
    AlwaysRight(limits, steps, md5, name, parts);
    var w := After(limits, steps).w;
    forall k | 0 <= k < |w.log| && w.log[k].Ingest? && w.log[k].id == id
      ensures w.log[k].key in w.objects && w.objects[w.log[k].key] == Concat(parts)
    {
      assert EventTrue(w.rows, w.log[k]);
      KeysAreSpelled(md5, 0, name, 0);
    }
  }

  // ---- the hypothesis in terms of the requests that are made ----

  ghost predicate RequestAgrees(rows: map<int, Row>, req: Request, md5: string, parts: seq<Bytes>) {
    !req.Initiate? && req.id in rows && rows[req.id].file.md5 == md5 ==>
      && (req.UploadPart? && 0 <= req.index < |parts| ==> req.content == parts[req.index])
      && (req.Complete? ==> req.total == |parts|)
  }

  /** Every request that is ever made for a document of this md5 carries the same bytes for the
      same index and the same part count. */
  ghost predicate RequestsAgree(limits: Limits, steps: seq<Step>, md5: string, parts: seq<Bytes>) {
    forall k :: 0 <= k < |steps| && steps[k].Spawn? ==>
      RequestAgrees(After(limits, steps).w.rows, steps[k].req, md5, parts)
  }

  lemma {:induction false} ProcsWereSpawned(limits: Limits, steps: seq<Step>, pid: nat)
    requires pid in After(limits, steps).procs
    ensures exists k :: 0 <= k < |steps| && steps[k].Spawn? && steps[k].req == After(limits, steps).procs[pid].req
  {
    var front, last := steps[..|steps| - 1], steps[|steps| - 1];
    var s := After(limits, front);
    if pid in s.procs {
      ProcsWereSpawned(limits, front, pid);
      if last.Exec? && last.pid == pid { AdvanceKeepsRequest(s.w, s.procs[pid], last.io); }
      var k :| 0 <= k < |front| && front[k].Spawn? && front[k].req == s.procs[pid].req;
      assert steps[k] == front[k];
    }
  }

  lemma AgreementHolds(limits: Limits, steps: seq<Step>, md5: string, name: string, parts: seq<Bytes>, k: nat)
    requires RequestsAgree(limits, steps, md5, parts) && Private(After(limits, steps).w, md5, name) && k <= |steps|
    ensures Agreed(After(limits, steps[..k]), md5, name, parts)
  {
    var s, end := After(limits, steps[..k]), After(limits, steps);
    AlwaysOk(limits, steps[..k]);
    assert steps[..k] + steps[k..] == steps;
    AfterFromAppend(Empty(limits), steps[..k], steps[k..]);
    AfterFromKeepsOk(s, steps[k..]);
    forall pid | pid in s.procs ensures Agrees(s.procs[pid], md5, parts) {
      ProcsWereSpawned(limits, steps[..k], pid);
      var j :| 0 <= j < k && steps[..k][j].Spawn? && steps[..k][j].req == s.procs[pid].req;
      assert RequestAgrees(end.w.rows, steps[j].req, md5, parts);
    }
  }

  /** If the requests made for an md5 agree and its merged key is its own, every merged row of it has
      the agreed parts, in order, under that key, and their length as its size. */
  lemma AgreeingRequestsMergeThePrivateFile(limits: Limits, steps: seq<Step>, md5: string, name: string,
      parts: seq<Bytes>, id: int)
    requires RequestsAgree(limits, steps, md5, parts) && Private(After(limits, steps).w, md5, name)
    requires IsMerged(After(limits, steps).w.rows, id, md5, name)
    ensures FileStored(After(limits, steps).w.objects, md5, name, parts)
    ensures After(limits, steps).w.rows[id].size == |Concat(parts)|
  {
    forall k | 0 <= k < |steps| ensures Agreed(After(limits, steps[..k]), md5, name, parts) {
      AgreementHolds(limits, steps, md5, name, parts, k);
    }
    MergedObjectIsTheFile(limits, steps, md5, name, parts, id);
  }

  predicate IsMerged(rows: map<int, Row>, id: int, md5: string, name: string) {
    id in rows && rows[id].file.md5 == md5 && rows[id].file.name == name && rows[id].merged
  }

  /** The end-to-end theorem: any number of owners, any interleaving, faults and expiry, parts sent
      again in any order. If the requests made for a slash-free md5 agree, every merged row of it
      has the agreed parts, in order, under its merged key, and their length as its size. */
  lemma AgreeingRequestsMergeTheFile(limits: Limits, steps: seq<Step>, md5: string, name: string, parts: seq<Bytes>,
      id: int)
    requires RequestsAgree(limits, steps, md5, parts) && '/' !in md5
    requires '/' !in name || forall other :: other in After(limits, steps).w.rows ==>
      '/' !in After(limits, steps).w.rows[other].file.md5
    requires IsMerged(After(limits, steps).w.rows, id, md5, name)
    ensures FileStored(After(limits, steps).w.objects, md5, name, parts)
    ensures After(limits, steps).w.rows[id].size == |Concat(parts)|
  {
    SlashFreeIsPrivate(After(limits, steps).w, md5, name);
    AgreeingRequestsMergeThePrivateFile(limits, steps, md5, name, parts, id);
  }

  /** Two ways to meet the privacy hypothesis: no md5 in the table has a slash, or neither this
      md5 nor this file name has one. */
  lemma SlashFreeIsPrivate(w: World, md5: string, name: string)
    requires '/' !in md5
    requires '/' !in name || forall id :: id in w.rows ==> '/' !in w.rows[id].file.md5
    ensures Private(w, md5, name)
  {
    forall id | id in w.rows && MergedKey(w.rows[id].file.md5, w.rows[id].file.name) == MergedKey(md5, name)
      ensures w.rows[id].file.md5 == md5
    {
      var f := w.rows[id].file;
      if '/' !in name { PlainMergedKeyIsPrivate(md5, name, f.md5, f.name); }
      else { MergedKeyInjective(md5, name, f.md5, f.name); }
    }
  }
}
