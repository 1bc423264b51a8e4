// Ingest events that are never written: the exact condition, and that the loss is for good.
module LostEvents {
  import opened Prelude
  import opened Upload
  import opened Interleaving
  import opened Serial
  import opened Retry
  import opened Resume
  import opened Scenario
  import opened Counting

  // ---- one completion ----

  /** Some call of the completion, before the k-th, was an effective MarkMerged. */
  ghost predicate Marked(w: World, req: Request, io: nat -> IO, k: nat) {
    exists j: nat :: j < k && MarksAt(w, req, io, j)
  }

  ghost predicate MarksAt(w: World, req: Request, io: nat -> IO, j: nat) {
    Run(w, req, io, j).1.pc.SetMerged? && io(j).fault.Applied()
  }

  /** Some call of the completion, before the k-th, was an effective publish. */
  ghost predicate Published(w: World, req: Request, io: nat -> IO, k: nat) {
    exists j: nat :: j < k && PublishesAt(w, req, io, j)
  }

  ghost predicate PublishesAt(w: World, req: Request, io: nat -> IO, j: nat) {
    Run(w, req, io, j).1.pc.Publish? && io(j).fault.Applied()
  }

  /** The row is merged exactly if marked, the event is logged exactly if published. */
  ghost predicate EffectsAre(w0: World, w: World, p: Proc, id: int, n: nat, marked: bool, published: bool)
    requires Ready(w0, id, n)
  {
    && id in w.rows && (w.rows[id].merged <==> marked)
    && w.log == w0.log + (if published then [IngestOf(MergedDoc(w0, id, n))] else [])
    && (published ==> p.pc.Done?)
  }

  /** One step of a try: merging and publishing are what these two calls do, when they take effect. */
  lemma TryEffects(w0: World, w: World, p: Proc, io: IO, id: int, n: nat, marked: bool, published: bool)
    requires Ready(w0, id, n) && Trying(w0, w, p, id, n) && EffectsAre(w0, w, p, id, n, marked, published)
    ensures var (w', p') := AdvanceComplete(w, p, io);
      EffectsAre(w0, w', p', id, n, marked || (p.pc.SetMerged? && io.fault.Applied()),
                 published || (p.pc.Publish? && io.fault.Applied()))
  {}

  lemma {:induction false} EffectsOfTry(w0: World, id: int, n: nat, io: nat -> IO, k: nat)
    requires Ready(w0, id, n)
    ensures var req := TryOf(w0, id, n); var (w, p) := Run(w0, req, io, k);
      EffectsAre(w0, w, p, id, n, Marked(w0, req, io, k), Published(w0, req, io, k))
  {
    if k > 0 {
      var req := TryOf(w0, id, n);
      EffectsOfTry(w0, id, n, io, k - 1);
      OneTry(w0, w0, id, n, io, k - 1);
      OneMoreStep(w0, req, io, k);
      var (w, p) := Run(w0, req, io, k - 1);
      TryEffects(w0, w, p, io(k - 1), id, n, Marked(w0, req, io, k - 1), Published(w0, req, io, k - 1));
    }
  }

  /** Of a completion with any faults, cut off anywhere: the row is merged exactly if MarkMerged took
      effect, and the log has the document's event exactly if the publish took effect. */
  lemma MergedAndPublishedIff(w0: World, id: int, n: nat, io: nat -> IO, k: nat)
    requires Ready(w0, id, n)
    ensures var w := Run(w0, TryOf(w0, id, n), io, k).0;
      && id in w.rows && (w.rows[id].merged <==> Marked(w0, TryOf(w0, id, n), io, k))
      && w.log == w0.log + (if Published(w0, TryOf(w0, id, n), io, k) then [IngestOf(MergedDoc(w0, id, n))] else [])
  {
    EffectsOfTry(w0, id, n, io, k);
  }

  // ---- what the caller is told ----

  /** Some call before the k-th was a publish, and was reported as successful, or as failed. */
  ghost predicate PublishReported(w: World, req: Request, io: nat -> IO, k: nat, ok: bool) {
    exists j: nat :: j < k && PublishReportedAt(w, req, io, j, ok)
  }

  ghost predicate PublishReportedAt(w: World, req: Request, io: nat -> IO, j: nat, ok: bool) {
    Run(w, req, io, j).1.pc.Publish? && (io(j).fault == NoFault <==> ok)
  }

  /** Completed exactly if told that the publish succeeded, the document with an error exactly if told
      that it failed, and any other end is a fault of a store. */
  ghost predicate IsTold(w0: World, w: World, p: Proc, id: int, n: nat, good: bool, bad: bool)
    requires Ready(w0, id, n)
  {
    && (p.pc.Start? ==> w == w0)
    && (good <==> p.pc == Done(Completed(MergedDoc(w0, id, n))))
    && (bad <==> p.pc == Done(Unpublished(MergedDoc(w0, id, n))))
    && (p.pc.Done? && !good && !bad ==> p.pc == Done(Failed(StoreFault)))
    && (good ==> w.log == w0.log + [IngestOf(MergedDoc(w0, id, n))])
  }

  lemma TryTells(w0: World, w: World, p: Proc, io: IO, id: int, n: nat, good: bool, bad: bool)
    requires Ready(w0, id, n) && Trying(w0, w, p, id, n) && IsTold(w0, w, p, id, n, good, bad)
    ensures var (w', p') := AdvanceComplete(w, p, io);
      IsTold(w0, w', p', id, n, good || (p.pc.Publish? && io.fault == NoFault),
        bad || (p.pc.Publish? && io.fault != NoFault))
  {
    if p.pc.Compose? { ComposeAgain(w0, w, id, n); }
  }

  lemma OneMoreReport(w: World, req: Request, io: nat -> IO, k: nat, ok: bool)
    requires k > 0
    ensures PublishReported(w, req, io, k, ok) <==>
      PublishReported(w, req, io, k - 1, ok) || PublishReportedAt(w, req, io, k - 1, ok)
  {}

  /** What a completion of a fully uploaded document answers, with any faults and at any point: the
      document exactly if its publish was reported as successful, the document with an error exactly if it
      was reported as failed, and otherwise, if it is over, an error. With the first answer, the event is
      in the log. */
  lemma {:induction false} ReplyTellsOfThePublish(w0: World, id: int, n: nat, io: nat -> IO, k: nat)
    requires Ready(w0, id, n)
    ensures var req := TryOf(w0, id, n); var (w, p) := Run(w0, req, io, k);
      IsTold(w0, w, p, id, n, PublishReported(w0, req, io, k, true), PublishReported(w0, req, io, k, false))
  {
    if k > 0 {
      var req := TryOf(w0, id, n);
      ReplyTellsOfThePublish(w0, id, n, io, k - 1);
      OneTry(w0, w0, id, n, io, k - 1);
      OneMoreReport(w0, req, io, k, true);
      OneMoreReport(w0, req, io, k, false);
      var (w, p) := Run(w0, req, io, k - 1);
      TryTells(w0, w, p, io(k - 1), id, n, PublishReported(w0, req, io, k - 1, true),
               PublishReported(w0, req, io, k - 1, false));
    }
  }

  lemma OneMoreStep(w: World, req: Request, io: nat -> IO, k: nat)
    requires k > 0
    ensures Marked(w, req, io, k) <==> Marked(w, req, io, k - 1) || MarksAt(w, req, io, k - 1)
    ensures Published(w, req, io, k) <==> Published(w, req, io, k - 1) || PublishesAt(w, req, io, k - 1)
  {}

  // ---- for good ----

  /** A completion of the document that has read its row before the merge and is not over. */
  predicate IsUnderway(procs: map<nat, Proc>, pid: nat, id: int) {
    pid in procs && procs[pid].req.Complete? && procs[pid].req.id == id && Completing(procs[pid].pc)
  }

  /** Such completions make no further call: there are none, or their process has died. */
  ghost predicate NoneContinues(s: Sys, id: int, more: seq<Step>) {
    forall k :: 0 <= k < |more| && more[k].Exec? ==> !IsUnderway(s.procs, more[k].pid, id)
  }

  lemma QuietLog(s: Sys, id: int, pid: nat, io: IO)
    requires SysOk(s) && pid in s.procs && !IsUnderway(s.procs, pid, id)
    ensures Ingests(Advance(s.w, s.procs[pid], io).0.log, id) == Ingests(s.w.log, id)
  {
    var p := s.procs[pid];
    var log := Advance(s.w, p, io).0.log;
    AdvanceWritesOnce(s.w, p, io);
    if log != s.w.log {
      assert log == s.w.log + [log[|s.w.log|]];
      IngestsAppend(s.w.log, log[|s.w.log|], id);
    }
  }

  lemma QuietStep(s: Sys, id: int, step: Step)
    requires SysOk(s) && id in s.w.rows && s.w.rows[id].merged
    requires step.Exec? ==> !IsUnderway(s.procs, step.pid, id)
    ensures var t := Apply(s, step);
      && Ingests(t.w.log, id) == Ingests(s.w.log, id)
      && forall pid :: IsUnderway(t.procs, pid, id) ==> IsUnderway(s.procs, pid, id)
  {
    if step.Exec? && step.pid in s.procs {
      var p := s.procs[step.pid];
      QuietLog(s, id, step.pid, step.io);
      AdvanceKeepsRequest(s.w, p, step.io);
      if p.req.Complete? && Completing(Advance(s.w, p, step.io).1.pc) { AdvanceCompleting(s.w, p, step.io); }
    }
  }

  /** Once a row is merged and no completion of it continues, its number of ingest events is final:
      no request of any kind, by whomever and however often repeated, writes one. */
  lemma {:induction false} IngestsAreFinal(s: Sys, id: int, more: seq<Step>)
    requires SysOk(s) && id in s.w.rows && s.w.rows[id].merged && NoneContinues(s, id, more)
    ensures var t := AfterFrom(s, more);
      && id in t.w.rows && t.w.rows[id].merged && Ingests(t.w.log, id) == Ingests(s.w.log, id)
      && forall pid :: IsUnderway(t.procs, pid, id) ==> IsUnderway(s.procs, pid, id)
  {
    if more != [] {
      var front, last := more[..|more| - 1], more[|more| - 1];
      IngestsAreFinal(s, id, front);
      AfterFromKeepsOk(s, front);
      ApplyKeepsOk(AfterFrom(s, front), last);
      QuietStep(AfterFrom(s, front), id, last);
    }
  }

  // ---- a run in which it happens ----

  /** All is well but for a lost reply of MarkMerged. */
  function LostReply(): nat -> IO { (k: nat) => IO(if k == 3 then FailAfter else NoFault, 0, 0) }

  function OneLost(limits: Limits, md5: string, name: string, content: Bytes): seq<Call> {
    OneReady(limits, md5, name, content) + [Make(Complete(1, 1, 1), LostReply(), 7)]
  }

  /** The third call after the read is MarkMerged; its lost reply ends the completion. */
  lemma ReplyIsLost(w: World, id: int, n: nat, k: nat)
    requires Ready(w, id, n) && n == 1 && k >= 4
    ensures var (w', p') := Run(w, TryOf(w, id, n), LostReply(), k);
      && id in w'.rows && w'.rows[id].merged && w'.log == w.log && p'.pc == Done(Failed(StoreFault))
  {
    var io, req := LostReply(), TryOf(w, id, n);
    ScanByComplete(w, id, n, io, n);
    ScanIsExact(BitsFor(w, id), n);
    assert io(3) == IO(FailAfter, 0, 0);
    var doc := Doc(id, w.rows[id]);
    assert Run(w, req, io, 2) == (w, Proc(req, Compose(doc)));
    var v, size := w.(objects := WithFile(w, id, n)), |FileOf(w, id, n)|;
    assert Run(w, req, io, 3) == AdvanceComplete(w, Proc(req, Compose(doc)), io(2));
    assert Run(w, req, io, 4) == AdvanceComplete(v, Proc(req, SetMerged(doc, size)), io(3));
    DoneIsFinal(w, req, io, 4, k);
  }

  /** So for every file the service accepts there is a run after which it is merged, and never, in
      no continuation whatever, gets an ingest event. */
  lemma EventLostForGood(limits: Limits, md5: string, name: string, content: Bytes) returns (steps: seq<Step>)
    requires Uploadable(limits, md5, name)
    ensures forall more :: var w := After(limits, steps + more).w;
      1 in w.rows && w.rows[1].merged && Ingests(w.log, 1) == 0
  {
    var calls := OneReady(limits, md5, name, content);
    OneIsReady(limits, md5, name, content);
    ReplyIsLost(AfterCalls(limits, calls), 1, 1, 7);
    OneMoreCall(limits, calls, Make(Complete(1, 1, 1), LostReply(), 7));
    steps := SerialRunsAreRuns(limits, OneLost(limits, md5, name, content));
    var s := After(limits, steps);
    AlwaysOk(limits, steps);
    forall more
      ensures var w := After(limits, steps + more).w; 1 in w.rows && w.rows[1].merged && Ingests(w.log, 1) == 0
    {
      forall pid: nat ensures !IsUnderway(s.procs, pid, 1) {
        NoneIsUnderway(limits, md5, name, content, s.procs, pid);
      }
      IngestsAreFinal(s, 1, more);
      AfterFromAppend(Empty(limits), steps, more);
    }
  }

  lemma NoneIsUnderway(limits: Limits, md5: string, name: string, content: Bytes, procs: map<nat, Proc>, pid: nat)
    requires ProcsFrom(procs, OneLost(limits, md5, name, content))
    ensures !IsUnderway(procs, pid, 1)
  {}
}
