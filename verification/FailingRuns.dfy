// Runs that reach two of the failing cases: a soft-deleted file that cannot come back, and documents
// with equal created_at across a page boundary.
module FailingRuns {
  import opened Prelude
  import opened Upload
  import opened Interleaving
  import opened Serial
  import opened Resume
  import opened Scenario
  import Listing
  import Tenancy

  // ---- a deleted file ----

  function DeleteCall(owner: int, id: int): Call { Make(DeleteDoc(owner, id), CALM, 3) }

  function Erased(row: Row): Row { row.(deletedAt := Some(0)) }

  /** A failure-free DeleteDocument of a live row. */
  lemma DeleteErases(w: World, id: int, k: nat)
    requires id in w.rows && w.rows[id].deletedAt.None? && k == 3
    ensures Run(w, DeleteDoc(w.rows[id].file.owner, id), CALM, k) ==
      (w.(rows := w.rows[id := Erased(w.rows[id])], log := w.log + [DeleteOf(Doc(id, w.rows[id]))]),
       Proc(DeleteDoc(w.rows[id].file.owner, id), Done(Deleted)))
  {
    var req, doc := DeleteDoc(w.rows[id].file.owner, id), Doc(id, w.rows[id]);
    assert Run(w, req, CALM, 0) == (w, Proc(req, Start));
    assert Run(w, req, CALM, 1) == (w, Proc(req, SoftDelete(doc)));
    assert Run(w, req, CALM, 2) == (w.(rows := w.rows[id := Erased(w.rows[id])]), Proc(req, PublishDelete(doc)));
  }

  /** One user registers, begins an upload and deletes it. */
  function OneDeleted(md5: string, name: string, size: int): seq<Call> {
    Registration(1, "ann") + [BeginCall(1, md5, name, size, 1), DeleteCall(1, 1)]
  }

  lemma BeginAndDelete(w: World, md5: string, name: string, size: int)
    requires w.tenancy.db.members == [Ann(1)] && w.rows == map[] && Uploadable(w.limits, md5, name)
      && size <= w.limits.maxFileSize
    ensures var w' := Two(w, BeginCall(1, md5, name, size, 1), DeleteCall(1, 1));
      w'.rows == map[1 := Erased(RowOf(1, md5, name, size, ANN_TAG))] && w'.limits == w.limits
        && w'.tenancy == w.tenancy
  {
    Tenancy.OnePrimaryIsThePrimaryTag(w.tenancy.db.members, 1, ANN_TAG);
    BeginCreates(w, 1, md5, name, size, 1, ANN_TAG);
    DeleteErases(ApplyCall(w, BeginCall(1, md5, name, size, 1)), 1, 3);
  }

  lemma DeletedIsThere(limits: Limits, md5: string, name: string)
    requires Uploadable(limits, md5, name)
    ensures var w := AfterCalls(limits, OneDeleted(md5, name, limits.maxFileSize));
      && w.rows == map[1 := Erased(RowOf(1, md5, name, limits.maxFileSize, ANN_TAG))]
      && w.limits == limits && Tenancy.PrimaryTag(w.tenancy.db.members, 1) == Some(ANN_TAG)
  {
    AnnIsFirst(limits, 1);
    Tenancy.OnePrimaryIsThePrimaryTag([Ann(1)], 1, ANN_TAG);
    BeginAndDelete(AfterCalls(limits, Registration(1, "ann")), md5, name, limits.maxFileSize);
    TwoMoreCalls(limits, Registration(1, "ann"), BeginCall(1, md5, name, limits.maxFileSize, 1), DeleteCall(1, 1));
  }

  /** For every file that the service accepts there is a run without faults after which its row is
      soft-deleted, and beginning its upload again is a conflict. */
  lemma DeletedFileConflicts(limits: Limits, md5: string, name: string) returns (steps: seq<Step>)
    requires Uploadable(limits, md5, name)
    ensures var w := After(limits, steps).w;
      && PairDeleted(w.rows, 1, md5, 1)
      && var again := BeginOf(1, md5, name, limits.maxFileSize);
         Run(w, again, Naming(2), 3) == (w, Proc(again, Done(Failed(Conflict))))
  {
    DeletedIsThere(limits, md5, name);
    steps := SerialRunsAreRuns(limits, OneDeleted(md5, name, limits.maxFileSize));
    var w := After(limits, steps).w;
    assert forall k: nat :: Naming(2)(k) == IO(NoFault, 0, 2);
    assert FindLive(w.rows, md5, 1).None? && w.rows[1].file.md5 == md5 && Taken(w.rows, md5, 1);
    InitiateCreates(w, BeginOf(1, md5, name, limits.maxFileSize), Naming(2));
  }

  // ---- two documents of the same time ----

  function TwoAtOnce(m: string, n: string, m': string, n': string, size: int): seq<Call> {
    Registration(1, "ann") + [BeginCall(1, m, n, size, 1), BeginCall(1, m', n', size, 2)]
  }

  lemma BothAreThere(limits: Limits, m: string, n: string, m': string, n': string)
    requires Uploadable(limits, m, n) && Uploadable(limits, m', n') && m != m'
    ensures AfterCalls(limits, TwoAtOnce(m, n, m', n', limits.maxFileSize)).rows ==
      map[1 := RowOf(1, m, n, limits.maxFileSize, ANN_TAG), 2 := RowOf(1, m', n', limits.maxFileSize, ANN_TAG)]
  {
    var size := limits.maxFileSize;
    AnnIsFirst(limits, 1);
    var w := AfterCalls(limits, Registration(1, "ann"));
    Tenancy.OnePrimaryIsThePrimaryTag(w.tenancy.db.members, 1, ANN_TAG);
    TwoMoreCalls(limits, Registration(1, "ann"), BeginCall(1, m, n, size, 1), BeginCall(1, m', n', size, 2));
    BeginCreates(w, 1, m, n, size, 1, ANN_TAG);
    BeginCreates(ApplyCall(w, BeginCall(1, m, n, size, 1)), 1, m', n', size, 2, ANN_TAG);
  }

  /** For any two files of different md5s there is a run without faults after which pages of one
      document each, fetched one by one, need not list the owner's documents. */
  lemma TiesAreReachable(limits: Limits, m: string, n: string, m': string, n': string) returns (steps: seq<Step>)
    requires Uploadable(limits, m, n) && Uploadable(limits, m', n') && m != m'
    ensures var rows := After(limits, steps).w.rows;
      Listing.IsListing(rows, 1, [1, 2]) && !Listing.GoodPages(rows, 1, [1, 2], 1, 2)
  {
    BothAreThere(limits, m, n, m', n');
    steps := SerialRunsAreRuns(limits, TwoAtOnce(m, n, m', n', limits.maxFileSize));
    var rows := After(limits, steps).w.rows;
    assert Listing.Offset(2, 1) == 1 && Listing.Offset(3, 1) == 2;
    assert Listing.Time(rows, [1, 2][0]) == Listing.Time(rows, [1, 2][1]);
    Listing.PagesFormAListingIff(rows, 1, [1, 2], 1, 2);
  }
}
