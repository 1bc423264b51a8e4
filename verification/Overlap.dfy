// Two completions of one document that overlap: both publish, so the bound of Counting.dfy on ingest
// events is attained.
module Overlap {
  import opened Prelude
  import opened Upload
  import opened Interleaving
  import opened Serial
  import opened Retry
  import opened Resume
  import opened Scenario
  import opened Counting

  // ---- the two halves of a failure-free completion ----

  /** Up to the call MarkMerged: only the merged object has been written. */
  lemma FirstHalf(w0: World, w: World, id: int, n: nat)
    requires Ready(w0, id, n) && BeforeMerge(w0, w, id, n)
    ensures Steps(w, Proc(TryOf(w0, id, n), Start), CALM, n + 2) ==
      (w0.(objects := WithFile(w0, id, n)),
        Proc(TryOf(w0, id, n), SetMerged(Doc(id, w0.rows[id]), |FileOf(w0, id, n)|)))
  {
    assert forall j: nat :: CALM(j) == IO(NoFault, 0, 0);
    var req, doc := TryOf(w0, id, n), Doc(id, w0.rows[id]);
    ScanByComplete(w, id, n, CALM, n);
    ScanIsExact(BitsFor(w, id), n);
    assert Run(w, req, CALM, n + 1) == Steps(w, Proc(req, Start), CALM, n + 1);
    ComposeAgain(w0, w, id, n);
    ComposeAgain(w0, w0, id, n);
    var run := StepsOf(w, Proc(req, Start), CALM);
    StepComplete(run, req, CALM, n + 1, w, Compose(doc));
  }

  function Marked(doc: Doc, size: int): Doc { doc.(row := doc.row.(merged := true, size := size)) }

  /** MarkMerged and the first i removals, whatever has happened before: rows and log. */
  lemma {:induction false} MergeAndRemove(run: nat -> (World, Proc), w: World, p: Proc, i: nat)
    requires Follows(run, CallsOf(CALM)) && run(0) == (w, p)
    requires p.req.Complete? && p.pc.SetMerged? && i <= p.req.total
    ensures var (w', p') := run(i + 1);
      && w'.rows == Merge(w.rows, p.pc.doc.id, p.pc.size) && w'.log == w.log
      && p' == Proc(p.req, AfterRemove(Marked(p.pc.doc, p.pc.size), p.req.total, i))
  {
    if i == 0 {
      StepComplete(run, p.req, CALM, 0, w, p.pc);
    } else {
      MergeAndRemove(run, w, p, i - 1);
      StepComplete(run, p.req, CALM, i, run(i).0, run(i).1.pc);
    }
  }

  /** From MarkMerged on, whatever has happened before: one event. */
  lemma SecondHalf(w: World, p: Proc, n: nat)
    requires p.req.Complete? && p.req.total == n && p.pc.SetMerged?
    ensures Steps(w, p, CALM, n + 3).0.log == w.log + [IngestOf(Marked(p.pc.doc, p.pc.size))]
  {
    var run := StepsOf(w, p, CALM);
    MergeAndRemove(run, w, p, n);
    StepComplete(run, p.req, CALM, n + 1, run(n + 1).0, run(n + 1).1.pc);
    StepComplete(run, p.req, CALM, n + 2, run(n + 2).0, run(n + 2).1.pc);
  }

  // ---- overlapped ----

  /** Calls of a process that is there. */
  lemma {:induction false} StepsEmbed(s: Sys, pid: nat, k: nat) returns (steps: seq<Step>)
    requires pid in s.procs
    ensures var t := AfterFrom(s, steps); var (w, p) := Steps(s.w, s.procs[pid], CALM, k);
      t.w == w && t.procs == s.procs[pid := p]
  {
    if k == 0 {
      steps := [];
      assert s.procs[pid := s.procs[pid]] == s.procs;
    } else {
      var front := StepsEmbed(s, pid, k - 1);
      steps := front + [Exec(pid, CALM(k - 1))];
      assert steps[..|steps| - 1] == front;
    }
  }

  lemma SpawnEmbeds(s: Sys, pid: nat, req: Request) returns (steps: seq<Step>)
    requires pid !in s.procs
    ensures AfterFrom(s, steps).w == s.w && AfterFrom(s, steps).procs == s.procs[pid := Proc(req, Start)]
  {
    steps := [] + [Spawn(pid, req)];
    AfterFromAppend(s, [], [Spawn(pid, req)]);
  }

  /** Both read the uploading row and compose before either marks it merged; then one finishes, and
      then the other. */
  lemma BothPublish(s: Sys, id: int, n: nat, a: nat, b: nat) returns (steps: seq<Step>)
    requires Ready(s.w, id, n) && a != b && a !in s.procs && b !in s.procs
    ensures var t := AfterFrom(s, steps); var e := IngestOf(MergedDoc(s.w, id, n));
      && t.w.log == s.w.log + [e] + [e]
      && t.procs.Keys == s.procs.Keys + {a, b} && forall pid :: pid in s.procs ==> t.procs[pid] == s.procs[pid]
  {
    var req := TryOf(s.w, id, n);
    var spawnA := SpawnEmbeds(s, a, req);
    var s1 := AfterFrom(s, spawnA);
    var spawnB := SpawnEmbeds(s1, b, req);
    var s2 := AfterFrom(s1, spawnB);
    FirstHalf(s.w, s.w, id, n);
    var firstA := StepsEmbed(s2, a, n + 2);
    var s3 := AfterFrom(s2, firstA);
    FirstHalf(s.w, s3.w, id, n);
    var firstB := StepsEmbed(s3, b, n + 2);
    var s4 := AfterFrom(s3, firstB);
    SecondHalf(s4.w, s4.procs[a], n);
    var lastA := StepsEmbed(s4, a, n + 3);
    var s5 := AfterFrom(s4, lastA);
    SecondHalf(s5.w, s5.procs[b], n);
    var lastB := StepsEmbed(s5, b, n + 3);
    AfterFromAppend(s, spawnA, spawnB);
    AfterFromAppend(s, spawnA + spawnB, firstA);
    AfterFromAppend(s, spawnA + spawnB + firstA, firstB);
    AfterFromAppend(s, spawnA + spawnB + firstA + firstB, lastA);
    AfterFromAppend(s, spawnA + spawnB + firstA + firstB + lastA, lastB);
    steps := spawnA + spawnB + firstA + firstB + lastA + lastB;
  }

  // ---- who has read the row ----

  /** Only completions of a document are recorded as its readers. */
  lemma {:induction false} ReadersAreCompletions(limits: Limits, steps: seq<Step>)
    ensures var s := After(limits, steps);
      forall r :: r in s.readers ==> r.0 in s.procs && s.procs[r.0].req.Complete? && s.procs[r.0].req.id == r.1
  {
    if steps != [] {
      var front, last := steps[..|steps| - 1], steps[|steps| - 1];
      var s := After(limits, front);
      ReadersAreCompletions(limits, front);
      if last.Exec? && last.pid in s.procs { AdvanceKeepsRequest(s.w, s.procs[last.pid], last.io); }
    }
  }

  lemma TwoIngests(log: seq<Event>, e: Event, id: int)
    requires IsIngestOf(e, id)
    ensures Ingests(log + [e] + [e], id) == Ingests(log, id) + 2
  {
    IngestsAppend(log, e, id);
    IngestsAppend(log + [e], e, id);
  }

  /** If a and b are the only completions of a document, nobody else has read it. */
  lemma TwoReaders(limits: Limits, steps: seq<Step>, id: int, a: nat, b: nat)
    requires forall pid :: pid in After(limits, steps).procs && After(limits, steps).procs[pid].req.Complete? ==>
      pid in {a, b}
    ensures |ReadersOf(After(limits, steps), id)| <= 2
  {
    ReadersAreCompletions(limits, steps);
    var pids := ReadersOf(After(limits, steps), id);
    forall pid | pid in pids ensures pid in {a, b} { assert (pid, id) in After(limits, steps).readers; }
    var rest := {a, b} - pids;
    assert pids + rest == {a, b} && |pids + rest| == |pids| + |rest|;
  }

  /** For every file that the service accepts there is a run without faults, with two completions of it
      that read the uploading row, and two ingest events. So IngestsAreBoundedByReaders is tight, and
      AtMostOneIngest holds in serial runs only. */
  lemma TwoEvents(limits: Limits, md5: string, name: string, content: Bytes) returns (steps: seq<Step>)
    requires Uploadable(limits, md5, name)
    ensures var s := After(limits, steps); Ingests(s.w.log, 1) == 2 && |ReadersOf(s, 1)| == 2
  {
    var calls := OneReady(limits, md5, name, content);
    OneIsReady(limits, md5, name, content);
    var before := SerialRunsAreRuns(limits, calls);
    var s := After(limits, before);
    var a, b := |calls|, |calls| + 1;
    var more := BothPublish(s, 1, 1, a, b);
    steps := before + more;
    AfterFromAppend(Empty(limits), before, more);
    TwoIngests(s.w.log, IngestOf(MergedDoc(s.w, 1, 1)), 1);
    assert Ingests([], 1) == 0;
    NoCompletionYet(limits, md5, name, content, s.procs);
    TwoReaders(limits, steps, 1, a, b);
    IngestsAreBoundedByReaders(limits, steps, 1);
  }

  lemma NoCompletionYet(limits: Limits, md5: string, name: string, content: Bytes, procs: map<nat, Proc>)
    requires ProcsFrom(procs, OneReady(limits, md5, name, content))
    ensures forall pid :: pid in procs ==> !procs[pid].req.Complete?
  {}
}
