// The adapters of internal/infra/minio, internal/infra/redis, internal/infra/mysql/document_repo.go
// and internal/infra/kafka/producer.go, each a class around the state it mutates. The io argument
// decides how each external call ends.
module Stores {
  import opened Prelude
  import opened KeyCodec
  import opened Upload
  import opened Retry
  import opened Listing

  predicate Reported(io: IO) { io.fault.Reported() }
  predicate Applied(io: IO) { io.fault.Applied() }

  /** The calls a, ..., b - 1 all report success. */
  ghost predicate AllReported(io: nat -> IO, a: nat, b: nat) {
    forall k: nat :: a <= k < b ==> Reported(io(k))
  }

  function ErrorOf(io: IO): Option<Error> {
    if Reported(io) then None else Some(StoreFault)
  }

  // ---- MinIO ----

  /** The objects left when the first n removals, made as calls from, from + 1, ..., are over. */
  function RemovedBy(objects: map<string, Bytes>, md5: string, io: nat -> IO, from: nat, n: nat): map<string, Bytes> {
    if n == 0 then objects
    else
      var rest := RemovedBy(objects, md5, io, from, n - 1);
      if Applied(io(from + n - 1)) then rest - {PartKey(md5, n - 1)} else rest
  }

  predicate RemovedAt(md5: string, io: nat -> IO, from: nat, i: nat, key: string) {
    Applied(io(from + i)) && key == PartKey(md5, i)
  }

  ghost predicate Removed(md5: string, io: nat -> IO, from: nat, n: nat, key: string) {
    exists i: nat :: i < n && RemovedAt(md5, io, from, i, key)
  }

  lemma OneMoreRemoved(md5: string, io: nat -> IO, from: nat, n: nat, key: string)
    requires n > 0
    ensures Removed(md5, io, from, n, key)
      <==> Removed(md5, io, from, n - 1, key) || RemovedAt(md5, io, from, n - 1, key)
  {}

  /** A clean-up leaves exactly the objects that no effective removal of a part has named. */
  lemma {:induction false} RemovedByIsExact(objects: map<string, Bytes>, md5: string, io: nat -> IO, from: nat, n: nat)
    ensures var left := RemovedBy(objects, md5, io, from, n);
      forall key :: (key in left <==> key in objects && !Removed(md5, io, from, n, key))
        && (key in left ==> left[key] == objects[key])
  {
    if n > 0 {
      RemovedByIsExact(objects, md5, io, from, n - 1);
      var before, left := RemovedBy(objects, md5, io, from, n - 1), RemovedBy(objects, md5, io, from, n);
      forall key
        ensures (key in left <==> key in objects && !Removed(md5, io, from, n, key))
          && (key in left ==> left[key] == objects[key])
      {
        OneMoreRemoved(md5, io, from, n, key);
        assert key in left <==> key in before && !RemovedAt(md5, io, from, n - 1, key);
      }
    }
  }

  class ObjectStore {
    var objects: map<string, Bytes>

    constructor ()
      ensures objects == map[]
    {
      objects := map[];
    }

    method PutPart(md5: string, index: int, content: Bytes, io: IO) returns (err: Option<Error>)
      modifies this
      ensures objects == if Applied(io) then old(objects)[PartKey(md5, index) := content] else old(objects)
      ensures err == ErrorOf(io)
    {
      if Applied(io) { objects := objects[PartKey(md5, index) := content]; }
      err := ErrorOf(io);
    }

    /** The client call ComposeObject: refuses an empty source list and a missing source. */
    method ComposeObject(dst: string, srcs: seq<string>, io: IO) returns (size: int, err: Option<Error>)
      modifies this
      ensures io.fault.FailBefore? ==> err == Some(StoreFault) && objects == old(objects)
      ensures !io.fault.FailBefore? && !(srcs != [] && forall k :: 0 <= k < |srcs| ==> srcs[k] in old(objects)) ==>
        err == Some(SourceMissing) && objects == old(objects)
      ensures !io.fault.FailBefore? && srcs != [] && (forall k :: 0 <= k < |srcs| ==> srcs[k] in old(objects)) ==>
        var file := Chain(old(objects), srcs);
        objects == old(objects)[dst := file] && size == |file| && err == ErrorOf(io)
    {
      size := 0;
      if io.fault.FailBefore? { return 0, Some(StoreFault); }
      if srcs == [] || exists k :: 0 <= k < |srcs| && srcs[k] !in objects { return 0, Some(SourceMissing); }
      var file := Chain(objects, srcs);
      objects := objects[dst := file];
      size := |file|;
      err := ErrorOf(io);
    }

    /** The merged file in index order: a success means every part was there, and the object under
        the merged key is their concatenation. */
    method ComposeMerged(md5: string, fileName: string, totalParts: int, io: IO)
      returns (key: string, size: int, err: Option<Error>)
      requires totalParts >= 0  // make panics on a negative length
      modifies this
      ensures err.None? <==> Reported(io) && CanCompose(old(objects), md5, totalParts)
      ensures err == Some(SourceMissing) <==> Applied(io) && !CanCompose(old(objects), md5, totalParts)
      ensures Applied(io) && CanCompose(old(objects), md5, totalParts) ==>
        objects == old(objects)[MergedKey(md5, fileName) := Joined(old(objects), md5, totalParts)]
      ensures !(Applied(io) && CanCompose(old(objects), md5, totalParts)) ==> objects == old(objects)
      ensures err.None? ==> key == MergedKey(md5, fileName) && size == |Joined(old(objects), md5, totalParts)|
      ensures err.None? || err == Some(SourceMissing) || err == Some(StoreFault)
    {
      var srcs: seq<string> := [];
      var i := 0;
      while i < totalParts
        invariant 0 <= i <= totalParts && |srcs| == i
        invariant forall k :: 0 <= k < i ==> srcs[k] == PartKey(md5, k)
      {
        srcs := srcs + [PartKey(md5, i)];
        i := i + 1;
      }
      SourcesAreParts(objects, md5, srcs);
      key := MergedKey(md5, fileName);
      size, err := ComposeObject(key, srcs, io);
    }

    method RemoveParts(md5: string, totalParts: nat, io: nat -> IO, from: nat) returns (err: Option<Error>, calls: nat)
      modifies this
      ensures calls <= totalParts
      ensures objects == RemovedBy(old(objects), md5, io, from, calls)
      ensures err.None? ==> calls == totalParts && AllReported(io, from, from + calls)
      ensures err.Some? ==> calls > 0 && !Reported(io(from + calls - 1)) && AllReported(io, from, from + calls - 1)
    {
      calls := 0;
      while calls < totalParts
        invariant calls <= totalParts
        invariant objects == RemovedBy(old(objects), md5, io, from, calls)
        invariant AllReported(io, from, from + calls)
      {
        var call := io(from + calls);
        if Applied(call) { objects := objects - {PartKey(md5, calls)}; }
        calls := calls + 1;
        if !Reported(call) { return Some(StoreFault), calls; }
      }
      err := None;
    }
  }

  function Chain(objects: map<string, Bytes>, srcs: seq<string>): Bytes
    requires forall k :: 0 <= k < |srcs| ==> srcs[k] in objects
  {
    if srcs == [] then [] else Chain(objects, srcs[..|srcs| - 1]) + objects[srcs[|srcs| - 1]]
  }

  lemma {:induction false} SourcesAreParts(objects: map<string, Bytes>, md5: string, srcs: seq<string>)
    requires forall k :: 0 <= k < |srcs| ==> srcs[k] == PartKey(md5, k)
    ensures (forall k :: 0 <= k < |srcs| ==> srcs[k] in objects) <==> HasParts(objects, md5, |srcs|)
    ensures HasParts(objects, md5, |srcs|) ==> Chain(objects, srcs) == Joined(objects, md5, |srcs|)
  {
    if HasParts(objects, md5, |srcs|) {
      forall k | 0 <= k < |srcs| ensures srcs[k] in objects { var i: nat := k; assert PartKey(md5, i) in objects; }
    }
    if forall k :: 0 <= k < |srcs| ==> srcs[k] in objects {
      forall i: nat | i < |srcs| ensures PartKey(md5, i) in objects { assert srcs[i] in objects; }
    }
    if srcs != [] { SourcesAreParts(objects, md5, srcs[..|srcs| - 1]); }
  }

  // ---- Redis bitmap ----

  class UploadProgress {
    var bits: map<string, set<nat>>

    constructor ()
      ensures bits == map[]
    {
      bits := map[];
    }

    method MarkPart(md5: string, owner: int, index: nat, io: IO) returns (err: Option<Error>)
      modifies this
      ensures bits == if Applied(io) then WithBit(old(bits), md5, owner, index) else old(bits)
      ensures err == ErrorOf(io)
    {
      if Applied(io) { bits := WithBit(bits, md5, owner, index); }
      err := ErrorOf(io);
    }

    method UploadedParts(md5: string, owner: int, totalParts: nat, io: nat -> IO, from: nat)
      returns (uploaded: seq<nat>, err: Option<Error>, calls: nat)
      ensures calls <= totalParts
      ensures err.None? ==> calls == totalParts && uploaded == SetBitsBelow(BitsOf(bits, md5, owner), totalParts)
      ensures err.None? ==> AllReported(io, from, from + calls)
      ensures err.Some? ==> err == Some(StoreFault) && calls > 0 && !Reported(io(from + calls - 1))
      ensures err.Some? ==> AllReported(io, from, from + calls - 1)
    {
      uploaded, calls := [], 0;
      while calls < totalParts
        invariant calls <= totalParts
        invariant uploaded == SetBitsBelow(BitsOf(bits, md5, owner), calls)
        invariant AllReported(io, from, from + calls)
      {
        var i := calls;
        calls := calls + 1;
        if !Reported(io(from + i)) { return [], Some(StoreFault), calls; }
        if i in BitsOf(bits, md5, owner) { uploaded := uploaded + [i]; }
      }
      err := None;
    }

    /** Compares lengths only, and thereby decides whether all bits below totalParts are set. */
    method AllUploaded(md5: string, owner: int, totalParts: nat, io: nat -> IO, from: nat)
      returns (all: bool, err: Option<Error>, calls: nat)
      ensures err.None? ==> (all <==> forall i: nat :: i < totalParts ==> i in BitsOf(bits, md5, owner))
      ensures err.None? ==> (all <==> |SetBitsBelow(BitsOf(bits, md5, owner), totalParts)| == totalParts)
      ensures calls <= totalParts
      ensures err.None? ==> calls == totalParts && AllReported(io, from, from + calls)
      ensures err.Some? ==> err == Some(StoreFault) && calls > 0 && !Reported(io(from + calls - 1))
      ensures err.Some? ==> AllReported(io, from, from + calls - 1)
    {
      var uploaded;
      uploaded, err, calls := UploadedParts(md5, owner, totalParts, io, from);
      ScanIsExact(BitsOf(bits, md5, owner), totalParts);
      all := err.None? && |uploaded| == totalParts;
    }

    method Clear(md5: string, owner: int, io: IO) returns (err: Option<Error>)
      modifies this
      ensures bits == if Applied(io) then old(bits) - {ProgressKey(md5, owner)} else old(bits)
      ensures err == ErrorOf(io)
    {
      if Applied(io) { bits := bits - {ProgressKey(md5, owner)}; }
      err := ErrorOf(io);
    }
  }

  // ---- MySQL documents table ----

  class DocumentRepo {
    var rows: map<int, Row>

    constructor ()
      ensures rows == map[]
    {
      rows := map[];
    }

    method Create(row: Row, io: IO) returns (err: Option<Error>)
      modifies this
      ensures err.None? ==> Reported(io)
      ensures err == Some(Conflict) <==>
        !io.fault.FailBefore? && FitsColumns(row.file)
          && (io.newId in old(rows) || Taken(old(rows), row.file.md5, row.file.owner))
      ensures rows == if !io.fault.FailBefore? && FitsColumns(row.file) && err != Some(Conflict)
                      then old(rows)[io.newId := row] else old(rows)
      ensures err != Some(Conflict) ==> err == if FitsColumns(row.file) then ErrorOf(io) else Some(StoreFault)
    {
      if io.fault.FailBefore? || !FitsColumns(row.file) { return Some(StoreFault); }
      if io.newId in rows
        || exists id :: id in rows && rows[id].file.md5 == row.file.md5 && rows[id].file.owner == row.file.owner
      {
        return Some(Conflict);
      }
      rows := rows[io.newId := row];
      err := ErrorOf(io);
    }

    method GetByID(id: int, io: IO) returns (doc: Option<Doc>, err: Option<Error>)
      ensures err.None? <==> Reported(io) && id in rows && rows[id].deletedAt.None?
      ensures err.None? ==> doc == Some(Doc(id, rows[id]))
      ensures err.Some? ==> err == Some(if Reported(io) then NotFound else StoreFault)
    {
      doc := None;
      if !Reported(io) { return None, Some(StoreFault); }
      if id !in rows || rows[id].deletedAt.Some? { return None, Some(NotFound); }
      return Some(Doc(id, rows[id])), None;
    }

    method GetByIDAny(id: int, io: IO) returns (doc: Option<Doc>, err: Option<Error>)
      ensures err.None? <==> Reported(io) && id in rows
      ensures err.None? ==> doc == Some(Doc(id, rows[id]))
      ensures err.Some? ==> err == Some(if Reported(io) then NotFound else StoreFault)
    {
      doc := None;
      if !Reported(io) { return None, Some(StoreFault); }
      if id !in rows { return None, Some(NotFound); }
      return Some(Doc(id, rows[id])), None;
    }

    /** The unique key makes the row found the only one there is. */
    method GetByMD5AndOwner(md5: string, owner: int, io: IO) returns (doc: Option<Doc>, err: Option<Error>)
      requires UniquePairs(rows)
      ensures err.None? ==> Reported(io) && doc.Some? && doc == FindLive(rows, md5, owner)
      ensures err == Some(NotFound) ==> Reported(io) && FindLive(rows, md5, owner).None?
      ensures err.Some? ==> err == Some(if Reported(io) then NotFound else StoreFault)
    {
      doc := None;
      if !Reported(io) { return None, Some(StoreFault); }
      if id :| id in rows && rows[id].file.md5 == md5 && rows[id].file.owner == owner && rows[id].deletedAt.None? {
        assert IsLive(rows, id, md5, owner);
        return Some(Doc(id, rows[id])), None;
      }
      return None, Some(NotFound);
    }

    /** answer is the order in which the database delivers the rows of the query. */
    method ListByOwner(owner: int, page: int, size: int, answer: seq<int>, io: nat -> IO)
      returns (docs: seq<Doc>, total: nat, err: Option<Error>)
      requires IsListing(rows, owner, answer) && page >= 1 && size >= 1
      ensures err.None? <==> Reported(io(0)) && Reported(io(1))
      ensures err.None? ==> AreDocs(rows, Page(answer, page, size), docs) && total == |answer|
      ensures |docs| <= size
    {
      if !Reported(io(0)) { return [], 0, Some(StoreFault); }
      total := |answer|;
      if !Reported(io(1)) { return [], 0, Some(StoreFault); }
      assert (page - 1) * size >= 0;
      var from := (page - 1) * size;
      if from > total { from := total; }
      var to := from + size;
      if to > total { to := total; }
      var ids := answer[from..to];
      docs := [];
      for k := 0 to |ids|
        invariant |docs| == k && AreDocs(rows, ids[..k], docs)
      {
        assert ids[k] in answer;
        docs := docs + [Doc(ids[k], rows[ids[k]])];
      }
      assert ids[..|ids|] == ids == Page(answer, page, size);
      err := None;
    }

    method MarkMerged(id: int, totalSize: int, io: IO) returns (err: Option<Error>)
      modifies this
      ensures rows == if Applied(io) then Merge(old(rows), id, totalSize) else old(rows)
      ensures err == ErrorOf(io)
    {
      if Applied(io) && id in rows { rows := rows[id := rows[id].(merged := true, size := totalSize)]; }
      err := ErrorOf(io);
    }

    method SoftDelete(id: int, io: IO) returns (err: Option<Error>)
      modifies this
      ensures rows == if Applied(io) then Erase(old(rows), id, io.now) else old(rows)
      ensures err == ErrorOf(io)
    {
      if Applied(io) && id in rows && rows[id].deletedAt.None? {
        rows := rows[id := rows[id].(deletedAt := Some(io.now))];
      }
      err := ErrorOf(io);
    }
  }

  // ---- Kafka producer ----

  class Producer {
    var log: seq<Event>

    constructor ()
      ensures log == []
    {
      log := [];
    }

    method Publish(e: Event, io: IO) returns (err: Option<Error>)
      modifies this
      ensures log == if Applied(io) then old(log) + [e] else old(log)
      ensures err == ErrorOf(io)
    {
      if Applied(io) { log := log + [e]; }
      err := ErrorOf(io);
    }
  }
}
