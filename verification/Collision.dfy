// When a merged object can be the wrong file: two uploads whose merged keys coincide. The exact
// condition, and a run for each pair of such uploads.
module Collision {
  import opened Prelude
  import opened KeyCodec
  import opened Upload
  import opened Interleaving
  import opened Serial
  import opened Retry
  import opened Scenario
  import opened MergedFile
  import Tenancy

  // ---- what reachable rows look like ----

  ghost predicate RowsUploadable(w: World) {
    forall id :: id in w.rows ==> Uploadable(w.limits, w.rows[id].file.md5, w.rows[id].file.name)
  }

  /** A request past its first checks has an md5 and an allowed extension. */
  predicate IsChecked(limits: Limits, p: Proc) {
    p.req.Initiate? && (p.pc.Insert? || p.pc.Lookup?) ==>
      p.req.md5 != "" && FileExt(p.req.name) in limits.allowedExts
  }

  ghost predicate AllUploadable(s: Sys) {
    RowsUploadable(s.w) && forall pid :: pid in s.procs ==> IsChecked(s.w.limits, s.procs[pid])
  }

  lemma InitiateKeepsUploadable(w: World, p: Proc, io: IO)
    requires RowsUploadable(w) && IsChecked(w.limits, p) && p.req.Initiate?
    ensures var (w', p') := AdvanceInitiate(w, p, io); RowsUploadable(w') && IsChecked(w.limits, p')
  {}

  /** Apart from InitiateUpload no call adds a row or changes what a row is about. */
  lemma OthersKeepFiles(w: World, p: Proc, io: IO)
    requires !p.req.Initiate?
    ensures var w' := Advance(w, p, io).0;
      w'.rows.Keys == w.rows.Keys && w'.limits == w.limits && forall id :: id in w.rows ==>
        w'.rows[id].file == w.rows[id].file
  {}

  lemma ApplyKeepsUploadable(s: Sys, step: Step)
    requires AllUploadable(s)
    ensures AllUploadable(Apply(s, step))
  {
    if step.Exec? && step.pid in s.procs {
      var p := s.procs[step.pid];
      AdvanceKeepsRequest(s.w, p, step.io);
      if p.req.Initiate? { InitiateKeepsUploadable(s.w, p, step.io); } else { OthersKeepFiles(s.w, p, step.io); }
    }
  }

  lemma {:induction false} AlwaysUploadable(limits: Limits, steps: seq<Step>)
    ensures AllUploadable(After(limits, steps)) && After(limits, steps).w.limits == limits
  {
    if steps != [] {
      AlwaysUploadable(limits, steps[..|steps| - 1]);
      ApplyKeepsUploadable(After(limits, steps[..|steps| - 1]), steps[|steps| - 1]);
      AlwaysOk(limits, steps[..|steps| - 1]);
      ApplyKeepsOk(After(limits, steps[..|steps| - 1]), steps[|steps| - 1]);
    }
  }

  // ---- one upload after the other ----

  /** Begin, send the only part, complete. */
  function OneUpload(owner: int, md5: string, name: string, size: int, id: int, content: Bytes): seq<Call> {
    [BeginCall(owner, md5, name, size, id), SendCall(owner, id, content)] + [CompleteCall(owner, id)]
  }

  lemma OneUploadMerges(w: World, owner: int, md5: string, name: string, size: int, id: int, content: Bytes,
      tag: string)
    requires Tenancy.PrimaryTag(w.tenancy.db.members, owner) == Some(tag) && |tag| <= 64
    requires Uploadable(w.limits, md5, name) && size <= w.limits.maxFileSize
    requires id !in w.rows && !Taken(w.rows, md5, owner)
    ensures var w' := ApplyCall(Two(w, BeginCall(owner, md5, name, size, id), SendCall(owner, id, content)),
      CompleteCall(owner, id));
      && w'.rows == w.rows[id := RowOf(owner, md5, name, |content|, tag).(merged := true)]
      && MergedKey(md5, name) in w'.objects && w'.objects[MergedKey(md5, name)] == content
      && w'.tenancy == w.tenancy && w'.limits == w.limits
  {
    BeginCreates(w, owner, md5, name, size, id, tag);
    var a := ApplyCall(w, BeginCall(owner, md5, name, size, id));
    SendArrives(a, id, content);
    CompleteMerges(ApplyCall(a, SendCall(owner, id, content)), id, 1, 7);
  }

  lemma CompleteMerges(w: World, id: int, n: nat, k: nat)
    requires Ready(w, id, n) && k >= Bound(TryOf(w, id, n))
    ensures AfterMerge(w, Run(w, TryOf(w, id, n), CALM, k).0, id, n)
  {
    assert forall j: nat :: CALM(j) == IO(NoFault, 0, 0);
    CleanTrySucceeds(w, w, id, n, CALM, k);
  }

  lemma AfterOneUpload(limits: Limits, calls: seq<Call>, owner: int, md5: string, name: string, size: int, id: int,
      content: Bytes)
    ensures AfterCalls(limits, calls + OneUpload(owner, md5, name, size, id, content)) ==
      ApplyCall(Two(AfterCalls(limits, calls), BeginCall(owner, md5, name, size, id), SendCall(owner, id, content)),
        CompleteCall(owner, id))
  {
    var two := [BeginCall(owner, md5, name, size, id), SendCall(owner, id, content)];
    TwoMoreCalls(limits, calls, two[0], two[1]);
    OneMoreCall(limits, calls + two, CompleteCall(owner, id));
    assert calls + OneUpload(owner, md5, name, size, id, content) == calls + two + [CompleteCall(owner, id)];
  }

  /** One user registers and uploads first (m, n) as document 1, then (m', n') as document 2. */
  function TwoFiles(m: string, n: string, m': string, n': string, a: Bytes, b: Bytes, size: int): seq<Call> {
    Registration(1, "ann") + OneUpload(1, m, n, size, 1, a) + OneUpload(1, m', n', size, 2, b)
  }

  /** Where the two keys coincide, the second upload has replaced the object of the first. */
  lemma SecondReplacesFirst(limits: Limits, m: string, n: string, m': string, n': string, a: Bytes, b: Bytes)
    requires Uploadable(limits, m, n) && Uploadable(limits, m', n')
    requires m != m' && MergedKey(m, n) == MergedKey(m', n')
    ensures var w := AfterCalls(limits, TwoFiles(m, n, m', n', a, b, limits.maxFileSize));
      && w.rows == map[1 := RowOf(1, m, n, |a|, ANN_TAG).(merged := true),
         2 := RowOf(1, m', n', |b|, ANN_TAG).(merged := true)]
      && MergedKey(m, n) in w.objects && w.objects[MergedKey(m, n)] == b
  {
    var size := limits.maxFileSize;
    var one := Registration(1, "ann");
    AnnIsFirst(limits, 1);
    var w := AfterCalls(limits, one);
    Tenancy.OnePrimaryIsThePrimaryTag(w.tenancy.db.members, 1, ANN_TAG);
    AfterOneUpload(limits, one, 1, m, n, size, 1, a);
    OneUploadMerges(w, 1, m, n, size, 1, a, ANN_TAG);
    var two := one + OneUpload(1, m, n, size, 1, a);
    AfterOneUpload(limits, two, 1, m', n', size, 2, b);
    OneUploadMerges(AfterCalls(limits, two), 1, m', n', size, 2, b, ANN_TAG);
  }

  /** The requests of this run agree on the bytes of either md5. */
  lemma TwoFilesAgree(m: string, n: string, m': string, n': string, a: Bytes, b: Bytes, size: int,
      rows: map<int, Row>, req: Request)
    requires IsMade(TwoFiles(m, n, m', n', a, b, size), req)
    requires rows == map[1 := RowOf(1, m, n, |a|, ANN_TAG).(merged := true),
      2 := RowOf(1, m', n', |b|, ANN_TAG).(merged := true)]
    requires m != m'
    ensures RequestAgrees(rows, req, m, [a])
  {}

  /** So there is a run without faults, expiry or deletion, in which all requests agree, that ends with
      a merged row whose object is not its file. */
  lemma SharedKeyOverwrites(limits: Limits, m: string, n: string, m': string, n': string, a: Bytes, b: Bytes)
    returns (steps: seq<Step>)
    requires Uploadable(limits, m, n) && Uploadable(limits, m', n')
    requires (m, n) != (m', n') && MergedKey(m, n) == MergedKey(m', n') && a != b
    ensures RequestsAgree(limits, steps, m, [a])
    ensures IsMerged(After(limits, steps).w.rows, 1, m, n) && !FileStored(After(limits, steps).w.objects, m, n, [a])
  {
    if m == m' { SameMd5SameName(m, n, n'); }
    var calls := TwoFiles(m, n, m', n', a, b, limits.maxFileSize);
    SecondReplacesFirst(limits, m, n, m', n', a, b);
    steps := SerialRunsAreRuns(limits, calls);
    var rows := After(limits, steps).w.rows;
    forall k | 0 <= k < |steps| && steps[k].Spawn? ensures RequestAgrees(rows, steps[k].req, m, [a]) {
      TwoFilesAgree(m, n, m', n', a, b, limits.maxFileSize, rows, steps[k].req);
    }
    ConcatOne(a);
  }

  lemma ConcatOne(a: Bytes)
    ensures Concat([a]) == a
  {
    assert [a][..0] == [];
    assert Concat([]) + a == a;
  }

  // ---- the exact condition ----

  /** In every run whose requests agree, a merged row of (md5, name) has its file. */
  ghost predicate AlwaysTheFile(limits: Limits, md5: string, name: string) {
    forall steps, parts, id ::
      RequestsAgree(limits, steps, md5, parts) && IsMerged(After(limits, steps).w.rows, id, md5, name) ==>
      FileStored(After(limits, steps).w.objects, md5, name, parts)
  }

  /** No other upload that the service accepts has the same merged key. */
  ghost predicate KeyIsItsOwn(limits: Limits, md5: string, name: string) {
    forall m, n :: Uploadable(limits, m, n) && MergedKey(m, n) == MergedKey(md5, name) ==> (m, n) == (md5, name)
  }

  lemma OwnKeyIsPrivate(limits: Limits, steps: seq<Step>, md5: string, name: string)
    requires KeyIsItsOwn(limits, md5, name)
    ensures Private(After(limits, steps).w, md5, name)
  {
    AlwaysUploadable(limits, steps);
  }

  /** For every upload that the service accepts: its merged object is the file in all runs with
      agreeing requests if and only if no other acceptable upload has the same merged key. By
      MergedKeyIsSharedIff that can only fail where the md5 or the name has a slash. */
  lemma AlwaysTheFileIff(limits: Limits, md5: string, name: string)
    requires Uploadable(limits, md5, name)
    ensures AlwaysTheFile(limits, md5, name) <==> KeyIsItsOwn(limits, md5, name)
    ensures '/' !in md5 && '/' !in name ==> KeyIsItsOwn(limits, md5, name)
  {
    MergedKeyIsSharedIff(md5, name);
    if KeyIsItsOwn(limits, md5, name) {
      forall steps, parts, id | RequestsAgree(limits, steps, md5, parts)
        && IsMerged(After(limits, steps).w.rows, id, md5, name)
        ensures FileStored(After(limits, steps).w.objects, md5, name, parts)
      {
        OwnKeyIsPrivate(limits, steps, md5, name);
        AgreeingRequestsMergeThePrivateFile(limits, steps, md5, name, parts, id);
      }
    } else {
      var m, n :| Uploadable(limits, m, n) && MergedKey(m, n) == MergedKey(md5, name) && (m, n) != (md5, name);
      var steps := SharedKeyOverwrites(limits, md5, name, m, n, [1], [2]);
      assert IsMerged(After(limits, steps).w.rows, 1, md5, name);
    }
  }

  lemma SharersAreUnsafe(limits: Limits, m: string, n: string, m': string, n': string)
    requires Uploadable(limits, m, n) && Uploadable(limits, m', n')
    requires (m, n) != (m', n') && MergedKey(m, n) == MergedKey(m', n')
    ensures !AlwaysTheFile(limits, m, n)
  {
    AlwaysTheFileIff(limits, m, n);
  }

  lemma SlashedFilesAreUploadable(limits: Limits)
    requires "md" in limits.allowedExts
    ensures Uploadable(limits, "a", "b/c.md") && Uploadable(limits, "a/b", "c.md")
  {
    assert "b/c.md" == "b/c" + ['.'] + "md" && "c.md" == "c" + ['.'] + "md";
    FileExtIsTheSuffix("b/c", "md");
    FileExtIsTheSuffix("c", "md");
    assert ToLower("md") == "md";
  }

  /** An instance: "b/c.md" under md5 "a", and "c.md" under md5 "a/b". */
  lemma SlashedMd5Overwrites(limits: Limits)
    requires "md" in limits.allowedExts
    ensures Uploadable(limits, "a", "b/c.md") && !AlwaysTheFile(limits, "a", "b/c.md")
    ensures Uploadable(limits, "a/b", "c.md") && !AlwaysTheFile(limits, "a/b", "c.md")
  {
    SlashedFilesAreUploadable(limits);
    assert "a/b" + ['/'] + "c.md" == "a" + ['/'] + "b/c.md";
    assert MergedKey("a/b", "c.md") == MergedKey("a", "b/c.md");
    SharersAreUnsafe(limits, "a", "b/c.md", "a/b", "c.md");
    SharersAreUnsafe(limits, "a/b", "c.md", "a", "b/c.md");
  }
}
