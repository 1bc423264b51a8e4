// Completing an upload again and again until it works: faults at any point of any try do not change
// where it ends.
module Retry {
  import opened Prelude
  import opened KeyCodec
  import opened Upload
  import opened Serial

  /** The bits below n, in increasing order: what a scan of the bitmap finds. */
  function SetBitsBelow(bits: set<nat>, n: nat): seq<nat> {
    if n == 0 then []
    else if n - 1 in bits then SetBitsBelow(bits, n - 1) + [n - 1]
    else SetBitsBelow(bits, n - 1)
  }

  lemma {:induction false} ScanListsBits(bits: set<nat>, n: nat)
    ensures Increasing(SetBitsBelow(bits, n), n)
    ensures forall i: nat :: i in SetBitsBelow(bits, n) <==> i < n && i in bits
  {
    if n > 0 { ScanListsBits(bits, n - 1); }
  }

  /** The scan lists exactly the set bits below n in strictly increasing order, and comparing its
      length with n decides whether all of them are set, whatever bits lie at or above n. */
  lemma ScanIsExact(bits: set<nat>, n: nat)
    ensures var s := SetBitsBelow(bits, n);
      && Increasing(s, n)
      && (forall i: nat :: i in s <==> i < n && i in bits)
      && (|s| == n <==> forall i: nat :: i < n ==> i in bits)
  {
    ScanListsBits(bits, n);
    IncreasingIsFullAtLength(SetBitsBelow(bits, n), n);
  }

  // ---- the world before and after the merge of document id with n parts ----

  /** All parts of a live, uploading document are marked and stored. */
  ghost predicate Ready(w: World, id: int, n: nat) {
    && n > 0 && id in w.rows && w.rows[id].deletedAt.None? && !w.rows[id].merged
    && (forall i: nat :: i < n ==> i in BitsOf(w.bits, w.rows[id].file.md5, w.rows[id].file.owner))
    && HasParts(w.objects, w.rows[id].file.md5, n)
  }

  function FileOf(w: World, id: int, n: nat): Bytes
    requires id in w.rows && HasParts(w.objects, w.rows[id].file.md5, n)
  {
    Joined(w.objects, w.rows[id].file.md5, n)
  }

  function KeyOf(w: World, id: int): string
    requires id in w.rows
  {
    MergedKey(w.rows[id].file.md5, w.rows[id].file.name)
  }

  function WithFile(w: World, id: int, n: nat): map<string, Bytes>
    requires id in w.rows && HasParts(w.objects, w.rows[id].file.md5, n)
  {
    w.objects[KeyOf(w, id) := FileOf(w, id, n)]
  }

  function MergedDoc(w: World, id: int, n: nat): Doc
    requires id in w.rows && HasParts(w.objects, w.rows[id].file.md5, n)
  {
    Doc(id, w.rows[id].(merged := true, size := |FileOf(w, id, n)|))
  }

  /** Nothing has happened except, perhaps, that the merged object is already there. */
  ghost predicate BeforeMerge(w0: World, w: World, id: int, n: nat)
    requires Ready(w0, id, n)
  {
    w == w0 || w == w0.(objects := WithFile(w0, id, n))
  }

  /** The row is merged with the right size and its object is the file; nothing else changed in
      the table; other objects and bitmaps are untouched, parts and bits of this file may be gone;
      the log has at most this document's ingest event added. */
  ghost predicate AfterMerge(w0: World, w: World, id: int, n: nat)
    requires Ready(w0, id, n)
  {
    && w.rows == w0.rows[id := MergedDoc(w0, id, n).row]
    && KeyOf(w0, id) in w.objects && w.objects[KeyOf(w0, id)] == FileOf(w0, id, n)
    && (forall key :: key in w.objects ==> key in WithFile(w0, id, n) && w.objects[key] == WithFile(w0, id, n)[key])
    && (forall key :: key in w0.objects && key !in w.objects ==> exists i: nat ::
       i < n && key == PartKey(w0.rows[id].file.md5, i))
    && (w.bits == w0.bits || w.bits == w0.bits - {ProgressKey(w0.rows[id].file.md5, w0.rows[id].file.owner)})
    && (w.log == w0.log || w.log == w0.log + [IngestOf(MergedDoc(w0, id, n))])
    && w.tenancy == w0.tenancy && w.limits == w0.limits
  }

  // ---- one try ----

  /** Where a CompleteUpload that starts before or after the merge can stand. */
  ghost predicate Trying(w0: World, w: World, p: Proc, id: int, n: nat)
    requires Ready(w0, id, n)
  {
    var doc0, doc1 := Doc(id, w0.rows[id]), MergedDoc(w0, id, n);
    && p.req == Complete(w0.rows[id].file.owner, id, n)
    && match p.pc
       case Start => BeforeMerge(w0, w, id, n) || AfterMerge(w0, w, id, n)
       case Check(doc, i, found) => BeforeMerge(w0, w, id, n) && doc == doc0 && i < n && |found| == i
       case Compose(doc) => BeforeMerge(w0, w, id, n) && doc == doc0
       case SetMerged(doc, size) => w == w0.(objects := WithFile(w0, id, n)) && doc == doc0 && size == doc1.row.size
       case Remove(doc, i) => AfterMerge(w0, w, id, n) && w.log == w0.log && doc == doc1 && i < n
       case ClearBits(doc) => AfterMerge(w0, w, id, n) && w.log == w0.log && doc == doc1
       case Publish(doc) => AfterMerge(w0, w, id, n) && w.log == w0.log && doc == doc1
       case Done(reply) =>
         (match reply
          case Completed(doc) => AfterMerge(w0, w, id, n) && doc == doc1
          case Unpublished(doc) => AfterMerge(w0, w, id, n) && doc == doc1
          case Failed(e) => e == StoreFault && (BeforeMerge(w0, w, id, n) || AfterMerge(w0, w, id, n))
          case _ => false)
       case _ => false
  }

  lemma {:induction false} JoinedFrame(a: map<string, Bytes>, b: map<string, Bytes>, md5: string, n: nat)
    requires HasParts(a, md5, n)
    requires forall i: nat :: i < n ==> PartKey(md5, i) in b && b[PartKey(md5, i)] == a[PartKey(md5, i)]
    ensures HasParts(b, md5, n) && Joined(b, md5, n) == Joined(a, md5, n)
  {
    if n > 0 { JoinedFrame(a, b, md5, n - 1); }
  }

  /** Composing twice gives the same object: the merged key is not one of the part keys. */
  lemma ComposeAgain(w0: World, w: World, id: int, n: nat)
    requires Ready(w0, id, n) && BeforeMerge(w0, w, id, n)
    ensures HasParts(w.objects, w0.rows[id].file.md5, n)
      && Joined(w.objects, w0.rows[id].file.md5, n) == FileOf(w0, id, n)
    ensures w.(objects := w.objects[KeyOf(w0, id) := FileOf(w0, id, n)]) == w0.(objects := WithFile(w0, id, n))
  {
    var f := w0.rows[id].file;
    forall i: nat | i < n ensures PartKey(f.md5, i) != KeyOf(w0, id) {
      PartAndMergedKeysDiffer(f.md5, i, f.md5, f.name);
    }
    JoinedFrame(w0.objects, w.objects, f.md5, n);
  }

  lemma RemoveKeepsAfter(w0: World, w: World, id: int, n: nat, i: nat)
    requires Ready(w0, id, n) && AfterMerge(w0, w, id, n) && i < n
    ensures AfterMerge(w0, w.(objects := w.objects - {PartKey(w0.rows[id].file.md5, i)}), id, n)
  {
    var f := w0.rows[id].file;
    PartAndMergedKeysDiffer(f.md5, i, f.md5, f.name);
  }

  lemma TryCheck(w0: World, w: World, p: Proc, io: IO, id: int, n: nat)
    requires Ready(w0, id, n) && Trying(w0, w, p, id, n) && (p.pc.Start? || p.pc.Check?)
    ensures Trying(w0, AdvanceComplete(w, p, io).0, AdvanceComplete(w, p, io).1, id, n)
  {}

  lemma TryCompose(w0: World, w: World, p: Proc, io: IO, id: int, n: nat)
    requires Ready(w0, id, n) && Trying(w0, w, p, id, n) && p.pc.Compose?
    ensures Trying(w0, AdvanceComplete(w, p, io).0, AdvanceComplete(w, p, io).1, id, n)
  {
    ComposeAgain(w0, w, id, n);
  }

  lemma TryLate(w0: World, w: World, p: Proc, io: IO, id: int, n: nat)
    requires Ready(w0, id, n) && Trying(w0, w, p, id, n)
    requires !(p.pc.Start? || p.pc.Check? || p.pc.Compose?)
    ensures Trying(w0, AdvanceComplete(w, p, io).0, AdvanceComplete(w, p, io).1, id, n)
  {
    if p.pc.Remove? { RemoveKeepsAfter(w0, w, id, n, p.pc.i); }
  }

  lemma TryStep(w0: World, w: World, p: Proc, io: IO, id: int, n: nat)
    requires Ready(w0, id, n) && Trying(w0, w, p, id, n)
    ensures Trying(w0, AdvanceComplete(w, p, io).0, AdvanceComplete(w, p, io).1, id, n)
  {
    if p.pc.Start? || p.pc.Check? { TryCheck(w0, w, p, io, id, n); }
    else if p.pc.Compose? { TryCompose(w0, w, p, io, id, n); }
    else { TryLate(w0, w, p, io, id, n); }
  }

  ghost function TryOf(w0: World, id: int, n: nat): Request
    requires Ready(w0, id, n)
  {
    Complete(w0.rows[id].file.owner, id, n)
  }

  lemma {:induction false} OneTry(w0: World, w: World, id: int, n: nat, io: nat -> IO, k: nat)
    requires Ready(w0, id, n) && (BeforeMerge(w0, w, id, n) || AfterMerge(w0, w, id, n))
    ensures Trying(w0, Run(w, TryOf(w0, id, n), io, k).0, Run(w, TryOf(w0, id, n), io, k).1, id, n)
  {
    if k > 0 {
      OneTry(w0, w, id, n, io, k - 1);
      var (w', p') := Run(w, TryOf(w0, id, n), io, k - 1);
      TryStep(w0, w', p', io(k - 1), id, n);
    }
  }

  // ---- any number of tries ----

  /** A call after the merge only reads: it changes nothing, and unless the read fails it returns
      the merged row. */
  lemma {:induction false} AfterIsFinal(w0: World, w: World, id: int, n: nat, io: nat -> IO, k: nat)
    requires Ready(w0, id, n) && AfterMerge(w0, w, id, n)
    ensures var (w', p') := Run(w, TryOf(w0, id, n), io, k);
      w' == w && (k > 0 ==>
        p'.pc == Done(if io(0).fault.NoFault? then Completed(MergedDoc(w0, id, n)) else Failed(StoreFault)))
  {
    if k > 0 { AfterIsFinal(w0, w, id, n, io, k - 1); }
  }

  /** One try: how its store calls end, and how many of them it gets to make. */
  datatype Try = Try(io: nat -> IO, calls: nat)

  ghost function AfterTries(w0: World, id: int, n: nat, tries: seq<Try>): World
    requires Ready(w0, id, n)
  {
    if tries == [] then w0
    else
      var last := tries[|tries| - 1];
      Run(AfterTries(w0, id, n, tries[..|tries| - 1]), TryOf(w0, id, n), last.io, last.calls).0
  }

  ghost function ReplyOf(w0: World, id: int, n: nat, tries: seq<Try>): PC
    requires Ready(w0, id, n) && tries != []
  {
    var last := tries[|tries| - 1];
    Run(AfterTries(w0, id, n, tries[..|tries| - 1]), TryOf(w0, id, n), last.io, last.calls).1.pc
  }

  /** Any number of CompleteUpload calls with the same part count, each failing or cut off anywhere:
      until one gets past MarkMerged, rows, bits, parts and log are as at the start; from then on
      the row and the merged object are those of the file and never change again. */
  lemma {:induction false} TriesConverge(w0: World, id: int, n: nat, tries: seq<Try>)
    requires Ready(w0, id, n)
    ensures var w := AfterTries(w0, id, n, tries); BeforeMerge(w0, w, id, n) || AfterMerge(w0, w, id, n)
    ensures tries != [] ==> var r := ReplyOf(w0, id, n, tries);
      r == Done(Completed(MergedDoc(w0, id, n))) || r == Done(Unpublished(MergedDoc(w0, id, n))) ==>
        AfterMerge(w0, AfterTries(w0, id, n, tries), id, n)
    ensures tries != [] && AfterMerge(w0, AfterTries(w0, id, n, tries[..|tries| - 1]), id, n) ==>
      AfterTries(w0, id, n, tries) == AfterTries(w0, id, n, tries[..|tries| - 1])
  {
    if tries != [] {
      var front, last := tries[..|tries| - 1], tries[|tries| - 1];
      TriesConverge(w0, id, n, front);
      var w := AfterTries(w0, id, n, front);
      OneTry(w0, w, id, n, last.io, last.calls);
      if AfterMerge(w0, w, id, n) { AfterIsFinal(w0, w, id, n, last.io, last.calls); }
    }
  }

  // ---- the failure-free try ----

  /** How far the clean-up has come; a failure-free try that is over has returned the row. */
  ghost predicate CleanedUp(w0: World, w: World, p: Proc, id: int, n: nat)
    requires Ready(w0, id, n)
  {
    var f := w0.rows[id].file;
    && (p.pc.Remove? ==> forall i: nat :: i < p.pc.i ==> PartKey(f.md5, i) !in w.objects)
    && (p.pc.ClearBits? || p.pc.Publish? || p.pc.Done? ==> forall i: nat :: i < n ==> PartKey(f.md5, i) !in w.objects)
    && (p.pc.Publish? || p.pc.Done? ==> BitsOf(w.bits, f.md5, f.owner) == {})
    && (p.pc.Done? ==> p.pc.reply.Completed? && w.log == w0.log + [IngestOf(MergedDoc(w0, id, n))])
  }

  lemma CleanEarlyStep(w0: World, w: World, p: Proc, io: IO, id: int, n: nat)
    requires Ready(w0, id, n) && Trying(w0, w, p, id, n) && CleanedUp(w0, w, p, id, n) && io.fault.NoFault?
    requires (p.pc.Start? && BeforeMerge(w0, w, id, n)) || p.pc.Check? || p.pc.Compose?
    ensures !AdvanceComplete(w, p, io).1.pc.Done?
      && CleanedUp(w0, AdvanceComplete(w, p, io).0, AdvanceComplete(w, p, io).1, id, n)
  {
    if p.pc.Compose? { ComposeAgain(w0, w, id, n); }
  }

  lemma CleanRemoveStep(w0: World, w: World, p: Proc, io: IO, id: int, n: nat)
    requires Ready(w0, id, n) && Trying(w0, w, p, id, n) && CleanedUp(w0, w, p, id, n) && io.fault.NoFault?
    requires p.pc.SetMerged? || p.pc.Remove?
    ensures CleanedUp(w0, AdvanceComplete(w, p, io).0, AdvanceComplete(w, p, io).1, id, n)
  {
    var md5 := w0.rows[id].file.md5;
    if p.pc.Remove? {
      var w' := AdvanceComplete(w, p, io).0;
      assert w'.objects == w.objects - {PartKey(md5, p.pc.i)};
      forall j: nat | j < p.pc.i + 1 ensures PartKey(md5, j) !in w'.objects {}
    }
  }

  lemma CleanLastStep(w0: World, w: World, p: Proc, io: IO, id: int, n: nat)
    requires Ready(w0, id, n) && Trying(w0, w, p, id, n) && CleanedUp(w0, w, p, id, n) && io.fault.NoFault?
    requires p.pc.ClearBits? || p.pc.Publish? || p.pc.Done?
    ensures CleanedUp(w0, AdvanceComplete(w, p, io).0, AdvanceComplete(w, p, io).1, id, n)
  {}

  lemma {:induction false} CleanTry(w0: World, w: World, id: int, n: nat, io: nat -> IO, k: nat)
    requires Ready(w0, id, n) && BeforeMerge(w0, w, id, n) && Quiet(io)
    ensures var (w', p') := Run(w, TryOf(w0, id, n), io, k);
      Trying(w0, w', p', id, n) && CleanedUp(w0, w', p', id, n) && (p'.pc.Start? ==> BeforeMerge(w0, w', id, n))
    ensures k >= Bound(TryOf(w0, id, n)) ==> Run(w, TryOf(w0, id, n), io, k).1.pc.Done?
  {
    RequestsTerminate(w, TryOf(w0, id, n), io, k);
    if k > 0 {
      CleanTry(w0, w, id, n, io, k - 1);
      var (w', p') := Run(w, TryOf(w0, id, n), io, k - 1);
      TryStep(w0, w', p', io(k - 1), id, n);
      if p'.pc.Start? || p'.pc.Check? || p'.pc.Compose? { CleanEarlyStep(w0, w', p', io(k - 1), id, n); }
      else if p'.pc.SetMerged? || p'.pc.Remove? { CleanRemoveStep(w0, w', p', io(k - 1), id, n); }
      else { CleanLastStep(w0, w', p', io(k - 1), id, n); }
    }
  }

  /** One failure-free CompleteUpload, started at the beginning or after failed tries: it returns
      the merged row, publishes exactly one event, and leaves neither parts nor bits. */
  lemma CleanTrySucceeds(w0: World, w: World, id: int, n: nat, io: nat -> IO, k: nat)
    requires Ready(w0, id, n) && BeforeMerge(w0, w, id, n) && Quiet(io) && k >= Bound(TryOf(w0, id, n))
    ensures var (w', p') := Run(w, TryOf(w0, id, n), io, k);
      && p'.pc == Done(Completed(MergedDoc(w0, id, n))) && AfterMerge(w0, w', id, n)
      && w'.log == w0.log + [IngestOf(MergedDoc(w0, id, n))]
      && (forall i: nat :: i < n ==> PartKey(w0.rows[id].file.md5, i) !in w'.objects)
      && BitsOf(w'.bits, w0.rows[id].file.md5, w0.rows[id].file.owner) == {}
  {
    CleanTry(w0, w, id, n, io, k);
  }
}
