// How many ingest events a document can get.
module Counting {
  import opened Prelude
  import opened Upload
  import opened Interleaving
  import opened Serial

  predicate IsIngestOf(e: Event, id: int) { e.Ingest? && e.id == id }

  function Ingests(log: seq<Event>, id: int): nat {
    if log == [] then 0
    else Ingests(log[..|log| - 1], id) + (if IsIngestOf(log[|log| - 1], id) then 1 else 0)
  }

  lemma IngestsAppend(log: seq<Event>, e: Event, id: int)
    ensures Ingests(log + [e], id) == Ingests(log, id) + (if IsIngestOf(e, id) then 1 else 0)
  {
    assert (log + [e])[..|log|] == log;
  }

  // ---- under interleaving ----

  /** A call between its read of an uploading row and its publish. */
  predicate Completing(pc: PC) { pc.Check? || pc.Compose? || pc.SetMerged? || PastMerge(pc) }

  /** Each event has its writer, which wrote only this one and is over. */
  ghost predicate WritersOk(s: Sys) {
    && |s.writers| == |s.w.log|
    && (forall k :: 0 <= k < |s.writers| ==> s.writers[k] in s.procs && s.procs[s.writers[k]].pc.Done?)
    && (forall j, k :: 0 <= j < k < |s.writers| ==> s.writers[j] != s.writers[k])
  }

  /** The writers of ingest events have read the row in time, and so have the calls on their way. */
  ghost predicate WritersRead(s: Sys) {
    forall k :: 0 <= k < |s.w.log| && k < |s.writers| && s.w.log[k].Ingest? ==>
      (s.writers[k], s.w.log[k].id) in s.readers
  }

  ghost predicate CompletersRead(s: Sys) {
    forall pid :: pid in s.procs && s.procs[pid].req.Complete? && Completing(s.procs[pid].pc) ==>
      (pid, s.procs[pid].req.id) in s.readers
  }

  /** A step writes at most one event, and then its call is over. */
  lemma AdvanceWritesOnce(w: World, p: Proc, io: IO)
    requires ProcOk(w, p)
    ensures var (w', p') := Advance(w, p, io);
      w'.log == w.log
      || (!p.pc.Done? && p'.pc.Done? && |w'.log| == |w.log| + 1 && w.log <= w'.log
          && (w'.log[|w.log|].Ingest? ==> p.req.Complete? && p.pc.Publish? && w'.log[|w.log|].id == p.req.id))
  {}

  lemma AdvanceCompleting(w: World, p: Proc, io: IO)
    requires p.req.Complete? && Completing(Advance(w, p, io).1.pc)
    ensures Completing(p.pc) || (p.pc.Start? && (Advance(w, p, io).1.pc.Check? || Advance(w, p, io).1.pc.Compose?))
  {}

  lemma DoneStays(w: World, p: Proc, io: IO)
    requires p.pc.Done?
    ensures Advance(w, p, io) == (w, p)
  {}

  lemma ApplyKeepsWriters(s: Sys, step: Step)
    requires SysOk(s) && WritersOk(s)
    ensures WritersOk(Apply(s, step))
  {
    if step.Exec? && step.pid in s.procs {
      AdvanceWritesOnce(s.w, s.procs[step.pid], step.io);
      if s.procs[step.pid].pc.Done? { DoneStays(s.w, s.procs[step.pid], step.io); }
    }
  }

  lemma ApplyKeepsWritersRead(s: Sys, step: Step)
    requires SysOk(s) && WritersOk(s) && WritersRead(s) && CompletersRead(s)
    ensures WritersRead(Apply(s, step))
  {
    if step.Exec? && step.pid in s.procs { AdvanceWritesOnce(s.w, s.procs[step.pid], step.io); }
  }

  lemma ApplyKeepsCompletersRead(s: Sys, step: Step)
    requires CompletersRead(s)
    ensures CompletersRead(Apply(s, step))
  {
    if step.Exec? && step.pid in s.procs {
      var p := s.procs[step.pid];
      AdvanceKeepsRequest(s.w, p, step.io);
      if p.req.Complete? && Completing(Advance(s.w, p, step.io).1.pc) { AdvanceCompleting(s.w, p, step.io); }
    }
  }

  lemma {:induction false} AlwaysHistoryOk(limits: Limits, steps: seq<Step>)
    ensures var s := After(limits, steps); WritersOk(s) && WritersRead(s) && CompletersRead(s)
  {
    if steps != [] {
      var front, last := steps[..|steps| - 1], steps[|steps| - 1];
      AlwaysOk(limits, front);
      AlwaysHistoryOk(limits, front);
      ApplyKeepsWriters(After(limits, front), last);
      ApplyKeepsWritersRead(After(limits, front), last);
      ApplyKeepsCompletersRead(After(limits, front), last);
    }
  }

  /** The calls of CompleteUpload that read row id before it was merged. */
  ghost function ReadersOf(s: Sys, id: int): set<nat> {
    set r | r in s.readers && r.1 == id :: r.0
  }

  /** An entry of readers is made by a call that finds the row live and still uploading. */
  lemma ReadersFoundItUploading(s: Sys, step: Step, pid: nat, id: int)
    requires (pid, id) in Apply(s, step).readers && (pid, id) !in s.readers
    ensures step.Exec? && step.pid == pid && pid in s.procs && s.procs[pid].req.Complete? && s.procs[pid].req.id == id
    ensures id in s.w.rows && s.w.rows[id].deletedAt.None? && !s.w.rows[id].merged
    ensures s.w.rows[id].file.owner == s.procs[pid].req.owner
  {}

  lemma {:induction false} DistinctWritersCount(log: seq<Event>, writers: seq<nat>, readers: set<nat>, id: int)
    requires |writers| == |log|
    requires forall j, k :: 0 <= j < k < |writers| ==> writers[j] != writers[k]
    requires forall k :: 0 <= k < |log| && IsIngestOf(log[k], id) ==> writers[k] in readers
    ensures Ingests(log, id) <= |readers|
  {
    if log != [] {
      var n := |log| - 1;
      var rest := if IsIngestOf(log[n], id) then readers - {writers[n]} else readers;
      DistinctWritersCount(log[..n], writers[..n], rest, id);
    }
  }

  /** A document never has more ingest events than there were CompleteUpload calls that read its
      row before the first MarkMerged took effect. */
  lemma IngestsAreBoundedByReaders(limits: Limits, steps: seq<Step>, id: int)
    ensures var s := After(limits, steps); Ingests(s.w.log, id) <= |ReadersOf(s, id)|
  {
    AlwaysHistoryOk(limits, steps);
    var s := After(limits, steps);
    forall k | 0 <= k < |s.w.log| && IsIngestOf(s.w.log[k], id) ensures s.writers[k] in ReadersOf(s, id) {
      assert (s.writers[k], id) in s.readers;
    }
    DistinctWritersCount(s.w.log, s.writers, ReadersOf(s, id), id);
  }

  // ---- in serial runs ----

  /** At most one ingest event per document; a second one would need an unmerged row. */
  ghost predicate Once(w: World) {
    forall id :: Ingests(w.log, id) <= 1
  }

  ghost predicate OnceDuring(w: World, p: Proc) {
    Once(w) && (p.req.Complete? && Completing(p.pc) ==> Ingests(w.log, p.req.id) == 0)
  }

  lemma {:induction false} IngestedIsMerged(rows: map<int, Row>, log: seq<Event>, id: int)
    requires forall k :: 0 <= k < |log| ==> EventTrue(rows, log[k])
    ensures Ingests(log, id) > 0 ==> id in rows && rows[id].merged
  {
    if log != [] { IngestedIsMerged(rows, log[..|log| - 1], id); }
  }

  lemma AdvanceKeepsOnce(w: World, p: Proc, io: IO)
    requires WorldOk(w) && ProcOk(w, p) && OnceDuring(w, p)
    ensures var (w', p') := Advance(w, p, io); OnceDuring(w', p')
  {
    var (w', p') := Advance(w, p, io);
    AdvanceWritesOnce(w, p, io);
    AdvanceKeepsRequest(w, p, io);
    if w'.log != w.log {
      var e := w'.log[|w.log|];
      assert w'.log == w.log + [e];
      forall id ensures Ingests(w'.log, id) == Ingests(w.log, id) + (if IsIngestOf(e, id) then 1 else 0) {
        IngestsAppend(w.log, e, id);
      }
    } else if p.req.Complete? && Completing(p'.pc) {
      AdvanceCompleting(w, p, io);
      IngestedIsMerged(w.rows, w.log, p.req.id);
    }
  }

  lemma StepIsOnce(w: World, p: Proc, io: IO)
    requires WorldOk(w) && ProcOk(w, p) && OnceDuring(w, p)
    ensures var (w', p') := Advance(w, p, io); WorldOk(w') && ProcOk(w', p') && OnceDuring(w', p')
  {
    AdvanceKeepsOk(w, p, io);
    AdvanceKeepsOnce(w, p, io);
  }

  lemma {:induction false} RunIsOnce(w: World, req: Request, io: nat -> IO, n: nat)
    requires WorldOk(w) && Once(w)
    ensures var (v, p) := Run(w, req, io, n); WorldOk(v) && ProcOk(v, p) && OnceDuring(v, p)
  {
    if n > 0 {
      RunIsOnce(w, req, io, n - 1);
      var (v, p) := Run(w, req, io, n - 1);
      StepIsOnce(v, p, io(n - 1));
    }
  }

  /** In serial runs, whatever fails and wherever requests are cut off, a document has at most one
      ingest event, and only once its row is merged. */
  lemma {:induction false} AtMostOneIngest(limits: Limits, calls: seq<Call>, id: int)
    ensures var w := AfterCalls(limits, calls);
      WorldOk(w) && Once(w) && Ingests(w.log, id) <= 1
        && (Ingests(w.log, id) == 1 ==> id in w.rows && w.rows[id].merged)
  {
    if calls != [] {
      var w, c := AfterCalls(limits, calls[..|calls| - 1]), calls[|calls| - 1];
      AtMostOneIngest(limits, calls[..|calls| - 1], id);
      if c.Make? { RunIsOnce(w, c.req, c.io, c.n); }
      CallKeepsOk(w, c);
    }
    var w := AfterCalls(limits, calls);
    IngestedIsMerged(w.rows, w.log, id);
  }

  /** No fault, and long enough to finish. */
  ghost predicate Clean(c: Call) {
    c.Make? ==> Quiet(c.io) && c.n >= Bound(c.req)
  }

  ghost predicate Announced(w: World, p: Proc) {
    forall id :: id in w.rows && w.rows[id].merged ==>
      Ingests(w.log, id) == 1 || (p.req.Complete? && p.req.id == id && PastMerge(p.pc))
  }

  /** A row becomes merged only through the MarkMerged call of its own completion. */
  lemma NewlyMerged(w: World, p: Proc, io: IO, id: int)
    requires ProcOk(w, p) && io.fault.NoFault?
    requires var w' := Advance(w, p, io).0; id in w'.rows && w'.rows[id].merged && !(id in w.rows && w.rows[id].merged)
    ensures p.req.Complete? && p.req.id == id && PastMerge(Advance(w, p, io).1.pc)
  {}

  lemma PastMergeGoesOn(w: World, p: Proc, io: IO)
    requires ProcOk(w, p) && p.req.Complete? && PastMerge(p.pc) && io.fault.NoFault?
    ensures var (w', p') := AdvanceComplete(w, p, io);
      PastMerge(p'.pc) || (w'.log == w.log + [w'.log[|w.log|]] && IsIngestOf(w'.log[|w.log|], p.req.id))
  {}

  lemma {:induction false} IngestsGrow(log: seq<Event>, more: seq<Event>, id: int)
    ensures Ingests(log + more, id) >= Ingests(log, id)
  {
    if more == [] {
      assert log + more == log;
    } else {
      var n := |more| - 1;
      IngestsGrow(log, more[..n], id);
      assert log + more == (log + more[..n]) + [more[n]];
      IngestsAppend(log + more[..n], more[n], id);
    }
  }

  lemma AdvanceKeepsAnnounced(w: World, p: Proc, io: IO, next: (World, Proc))
    requires WorldOk(w) && ProcOk(w, p) && OnceDuring(w, p) && Announced(w, p) && io.fault.NoFault?
    requires next == Advance(w, p, io) && Once(next.0)
    ensures Announced(next.0, next.1)
  {
    AdvanceKeepsRequest(w, p, io);
    AdvanceKeepsOk(w, p, io);
    var log := next.0.log;
    assert log == w.log + log[|w.log|..];
    forall id | id in next.0.rows && next.0.rows[id].merged
      ensures Ingests(log, id) == 1 || (p.req.Complete? && p.req.id == id && PastMerge(next.1.pc))
    {
      IngestsGrow(w.log, log[|w.log|..], id);
      if !(id in w.rows && w.rows[id].merged) {
        NewlyMerged(w, p, io, id);
      } else if Ingests(w.log, id) != 1 {
        PastMergeGoesOn(w, p, io);
        if !PastMerge(next.1.pc) { IngestsAppend(w.log, log[|w.log|], id); }
      }
    }
  }

  lemma {:induction false} RunKeepsAnnounced(w: World, req: Request, io: nat -> IO, n: nat)
    requires WorldOk(w) && Once(w) && Announced(w, Proc(req, Start)) && Quiet(io)
    ensures var (v, p) := Run(w, req, io, n); Announced(v, p)
  {
    RunIsOnce(w, req, io, n);
    if n > 0 {
      RunKeepsAnnounced(w, req, io, n - 1);
      RunIsOnce(w, req, io, n - 1);
      var (v, p) := Run(w, req, io, n - 1);
      AdvanceKeepsAnnounced(v, p, io(n - 1), Run(w, req, io, n));
    }
  }

  /** In serial runs in which nothing fails, every merged document has exactly one ingest event. */
  lemma {:induction false} ExactlyOneIngest(limits: Limits, calls: seq<Call>, id: int)
    requires forall k :: 0 <= k < |calls| ==> Clean(calls[k])
    ensures var w := AfterCalls(limits, calls);
      id in w.rows ==> Ingests(w.log, id) == (if w.rows[id].merged then 1 else 0)
  {
    if calls != [] {
      var w, c := AfterCalls(limits, calls[..|calls| - 1]), calls[|calls| - 1];
      forall i ensures i in w.rows ==> Ingests(w.log, i) == (if w.rows[i].merged then 1 else 0) {
        ExactlyOneIngest(limits, calls[..|calls| - 1], i);
      }
      AtMostOneIngest(limits, calls[..|calls| - 1], id);
      if c.Make? {
        RunKeepsAnnounced(w, c.req, c.io, c.n);
        RequestsTerminate(w, c.req, c.io, c.n);
      }
      AtMostOneIngest(limits, calls, id);
    }
  }
}
