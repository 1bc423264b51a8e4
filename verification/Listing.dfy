// Paging through the live documents of an owner: what ListByOwner of document_repo.go and the
// clamping of ListDocuments amount to. The database may order documents with equal created_at either way, and anew
// for each query.
module Listing {
  import opened Upload

  ghost predicate Listed(rows: map<int, Row>, owner: int, id: int) {
    id in rows && rows[id].file.owner == owner && rows[id].deletedAt.None?
  }

  function Time(rows: map<int, Row>, id: int): int {
    if id in rows then rows[id].created else 0
  }

  /** An answer of the ordered query: each live document of the owner once, newest first. */
  ghost predicate IsListing(rows: map<int, Row>, owner: int, list: seq<int>) {
    && (forall id :: id in list <==> Listed(rows, owner, id))
    && (forall j, k :: 0 <= j < k < |list| ==> list[j] != list[k])
    && (forall j, k :: 0 <= j < k < |list| ==> Time(rows, list[j]) >= Time(rows, list[k]))
  }

  function ClampPage(page: int): int { if page < 1 then 1 else page }

  function ClampSize(size: int): int { if size < 1 || size > 100 then 20 else size }

  function Clip(k: int, n: nat): nat { if k < 0 then 0 else if k > n then n else k }

  /** Order, Offset((page - 1) * size), Limit(size). */
  function Page(list: seq<int>, page: int, size: int): seq<int>
    requires page >= 1 && size >= 1
  {
    var from := Clip((page - 1) * size, |list|);
    list[from..Clip(from + size, |list|)]
  }

  /** The rows behind a list of ids. */
  predicate AreDocs(rows: map<int, Row>, ids: seq<int>, docs: seq<Doc>) {
    |docs| == |ids| && forall k :: 0 <= k < |ids| ==> ids[k] in rows && docs[k] == Doc(ids[k], rows[ids[k]])
  }

  // ---- one answer, all pages ----

  function Pages(list: seq<int>, count: nat, size: int): seq<int>
    requires size >= 1
  {
    if count == 0 then [] else Pages(list, count - 1, size) + Page(list, count, size)
  }

  /** The position at which a page starts. */
  function Offset(page: int, size: int): int { (page - 1) * size }

  lemma NextOffset(page: int, size: int)
    ensures Offset(page + 1, size) == Offset(page, size) + size
  {}

  lemma {:induction false} OffsetsGrow(p: int, q: int, size: int)
    requires p <= q && size >= 1
    ensures Offset(p, size) <= Offset(q, size)
    decreases q - p
  {
    if p < q {
      OffsetsGrow(p, q - 1, size);
      NextOffset(q - 1, size);
    }
  }

  lemma PageAt(list: seq<int>, page: int, size: int)
    requires page >= 1 && size >= 1
    ensures var from, to := Clip(Offset(page, size), |list|), Clip(Offset(page + 1, size), |list|);
      && from <= to && Page(list, page, size) == list[from..to] && to <= from + size
      && (from < to ==> from == Offset(page, size))
  {
    OffsetsGrow(1, page, size);
    NextOffset(page, size);
  }

  lemma SlicesJoin(list: seq<int>, from: nat, to: nat)
    requires from <= to <= |list|
    ensures list[..from] + list[from..to] == list[..to]
  {}

  /** Pages 1 to ceil(total / size) of one answer are the answer. */
  lemma {:induction false} PagesArePrefix(list: seq<int>, count: nat, size: int)
    requires size >= 1
    ensures Pages(list, count, size) == list[..Clip(Offset(count + 1, size), |list|)]
    ensures Offset(count + 1, size) >= |list| ==> Pages(list, count, size) == list
  {
    if count > 0 {
      PagesArePrefix(list, count - 1, size);
      PageAt(list, count, size);
      SlicesJoin(list, Clip(Offset(count, size), |list|), Clip(Offset(count + 1, size), |list|));
    }
    assert list[..|list|] == list;
  }

  // ---- every page from its own query ----

  /** No page starts between two documents with the same created_at. */
  ghost predicate NoTieAcrossPages(rows: map<int, Row>, list: seq<int>, size: int) {
    forall p :: p >= 1 && 0 < Offset(p, size) < |list| ==>
      Time(rows, list[Offset(p, size) - 1]) > Time(rows, list[Offset(p, size)])
  }

  ghost predicate OnPage(rows: map<int, Row>, owner: int, size: int, list: seq<int>, page: int, id: int) {
    page >= 1 && size >= 1 && IsListing(rows, owner, list) && id in Page(list, page, size)
  }

  lemma {:induction false} DistinctCount(s: seq<int>)
    requires forall j, k :: 0 <= j < k < |s| ==> s[j] != s[k]
    ensures |set x | x in s| == |s|
  {
    if s != [] {
      var front, last := s[..|s| - 1], s[|s| - 1];
      DistinctCount(front);
      assert (set x | x in s) == (set x | x in front) + {last};
    }
  }

  lemma SubsetCount(a: set<int>, b: set<int>)
    requires a <= b
    ensures |a| <= |b|
  {
    var c := b - a;
    assert b == a + c && |b| == |a| + |c|;
  }

  lemma SameLength(rows: map<int, Row>, owner: int, a: seq<int>, b: seq<int>)
    requires IsListing(rows, owner, a) && IsListing(rows, owner, b)
    ensures |a| == |b|
  {
    DistinctCount(a);
    DistinctCount(b);
    forall x ensures x in a <==> x in b { assert x in a <==> Listed(rows, owner, x); }
    assert (set x | x in a) == (set x | x in b);
  }

  /** All answers have the same created_at at each position. */
  lemma SameTimes(rows: map<int, Row>, owner: int, a: seq<int>, b: seq<int>, k: nat)
    requires IsListing(rows, owner, a) && IsListing(rows, owner, b) && k < |a|
    ensures |b| == |a| && Time(rows, b[k]) == Time(rows, a[k])
  {
    SameLength(rows, owner, a, b);
    NotLater(rows, owner, a, b, k);
    NotLater(rows, owner, b, a, k);
  }

  lemma NotLater(rows: map<int, Row>, owner: int, a: seq<int>, b: seq<int>, k: nat)
    requires IsListing(rows, owner, a) && IsListing(rows, owner, b) && k < |a| && k < |b|
    ensures Time(rows, b[k]) <= Time(rows, a[k])
  {
    if Time(rows, b[k]) > Time(rows, a[k]) {
      var first, fewer := b[..k + 1], a[..k];
      forall x | x in first ensures x in fewer {
        var j :| 0 <= j < k + 1 && b[j] == x;
        assert x in b && x in a;
        var i :| 0 <= i < |a| && a[i] == x;
        assert i < k;
        assert fewer[i] == x;
      }
      DistinctCount(first);
      DistinctCount(fewer);
      SubsetCount(set x | x in first, set x | x in fewer);
      assert false;
    }
  }

  lemma PositionOnPage(list: seq<int>, page: int, size: int, id: int) returns (k: nat)
    requires page >= 1 && size >= 1 && id in Page(list, page, size)
    ensures k < |list| && list[k] == id && Offset(page, size) <= k < Offset(page, size) + size
  {
    var from := Clip((page - 1) * size, |list|);
    assert (page - 1) * size >= 0;
    var j :| 0 <= j < |Page(list, page, size)| && Page(list, page, size)[j] == id;
    k := from + j;
  }

  /** Across a position where the time drops, no two answers can disagree about a document. */
  lemma DropSeparates(rows: map<int, Row>, owner: int, list: seq<int>, a: seq<int>, b: seq<int>, i: nat, k: nat, j: nat)
    requires IsListing(rows, owner, list) && IsListing(rows, owner, a) && IsListing(rows, owner, b)
    requires i < k <= j < |b| && k < |list| && |a| == |list|
    requires Time(rows, list[k - 1]) > Time(rows, list[k])
    ensures a[i] != b[j]
  {
    SameTimes(rows, owner, list, a, k - 1);
    SameTimes(rows, owner, list, b, k);
    assert Time(rows, a[i]) >= Time(rows, a[k - 1]);
    assert Time(rows, b[k]) >= Time(rows, b[j]);
  }

  lemma OnOnePage(rows: map<int, Row>, owner: int, size: int, list: seq<int>, a: seq<int>, b: seq<int>, p: int,
      q: int, id: int)
    requires IsListing(rows, owner, list) && NoTieAcrossPages(rows, list, size)
    requires OnPage(rows, owner, size, a, p, id) && OnPage(rows, owner, size, b, q, id)
    ensures p >= q
  {
    var i := PositionOnPage(a, p, size, id);
    var j := PositionOnPage(b, q, size, id);
    SameLength(rows, owner, list, a);
    SameLength(rows, owner, list, b);
    if p < q {
      NextOffset(p, size);
      OffsetsGrow(p + 1, q, size);
      DropSeparates(rows, owner, list, a, b, i, Offset(p + 1, size), j);
    }
  }

  lemma TieMovesADocument(rows: map<int, Row>, owner: int, size: int, list: seq<int>, p: int) returns (other: seq<int>)
    requires IsListing(rows, owner, list) && size >= 1 && p >= 1 && 0 < Offset(p, size) < |list|
    requires Time(rows, list[Offset(p, size) - 1]) <= Time(rows, list[Offset(p, size)])
    ensures OnPage(rows, owner, size, list, p - 1, list[Offset(p, size) - 1])
    ensures OnPage(rows, owner, size, other, p, list[Offset(p, size) - 1])
  {
    var k := Offset(p, size);
    var id := list[k - 1];
    other := list[k - 1 := list[k]][k := id];
    forall x ensures x in other <==> Listed(rows, owner, x) {
      assert x in list <==> Listed(rows, owner, x);
      if x in list {
        var j :| 0 <= j < |list| && list[j] == x;
        assert other[if j == k then k - 1 else if j == k - 1 then k else j] == x;
      }
      if x in other {
        var j :| 0 <= j < |other| && other[j] == x;
        assert list[if j == k then k - 1 else if j == k - 1 then k else j] == x;
      }
    }
    assert IsListing(rows, owner, other);
    NextOffset(p - 1, size);
    assert p >= 2;
    OffsetsGrow(1, p - 1, size);
    assert Page(list, p - 1, size)[|Page(list, p - 1, size)| - 1] == id;
    assert Page(other, p, size)[0] == id;
    assert OnPage(rows, owner, size, list, p - 1, id) && OnPage(rows, owner, size, other, p, id);
  }

  // ---- all pages, each from its own query ----

  /** Pages 1 to count, page p cut out of answers(p). */
  function Fetched(answers: int -> seq<int>, count: nat, size: int): seq<int>
    requires size >= 1
  {
    if count == 0 then [] else Fetched(answers, count - 1, size) + Page(answers(count), count, size)
  }

  ghost predicate AllListings(rows: map<int, Row>, owner: int, answers: int -> seq<int>) {
    forall p :: IsListing(rows, owner, answers(p))
  }

  /** Position k of the pages comes from position k of the answer for its page. */
  ghost predicate CutFrom(answers: int -> seq<int>, size: int, p: int, k: nat, id: int) {
    p >= 1 && Offset(p, size) <= k < Offset(p, size) + size && k < |answers(p)| && answers(p)[k] == id
  }

  ghost predicate Cut(answers: int -> seq<int>, size: int, k: nat, id: int) {
    exists p :: CutFrom(answers, size, p, k, id)
  }

  ghost predicate AllCut(answers: int -> seq<int>, size: int, s: seq<int>) {
    forall k: nat :: k < |s| ==> Cut(answers, size, k, s[k])
  }

  lemma CutAppend(answers: int -> seq<int>, size: int, before: seq<int>, page: int)
    requires page >= 1 && size >= 1 && AllCut(answers, size, before)
      && |before| == Clip(Offset(page, size), |answers(page)|)
    ensures AllCut(answers, size, before + Page(answers(page), page, size))
  {
    PageAt(answers(page), page, size);
    var all := before + Page(answers(page), page, size);
    forall k: nat | k < |all| ensures Cut(answers, size, k, all[k]) {
      if k < |before| {
        assert all[k] == before[k];
      } else {
        assert all[k] == Page(answers(page), page, size)[k - |before|];
        assert CutFrom(answers, size, page, k, all[k]);
      }
    }
  }

  lemma {:induction false} FetchedAt(rows: map<int, Row>, owner: int, answers: int -> seq<int>, count: nat, size: int,
      n: nat)
    requires AllListings(rows, owner, answers) && size >= 1 && n == |answers(0)|
    ensures |Fetched(answers, count, size)| == Clip(Offset(count + 1, size), n)
    ensures AllCut(answers, size, Fetched(answers, count, size))
  {
    if count > 0 {
      FetchedAt(rows, owner, answers, count - 1, size, n);
      SameLength(rows, owner, answers(0), answers(count));
      PageAt(answers(count), count, size);
      CutAppend(answers, size, Fetched(answers, count - 1, size), count);
    }
  }

  lemma CutIsOnPage(rows: map<int, Row>, owner: int, answers: int -> seq<int>, size: int, p: int, k: nat, id: int)
    requires AllListings(rows, owner, answers) && size >= 1 && CutFrom(answers, size, p, k, id)
    ensures OnPage(rows, owner, size, answers(p), p, id)
  {
    var list := answers(p);
    var from := Clip((p - 1) * size, |list|);
    assert Page(list, p, size)[k - from] == list[k];
  }

  lemma FetchedDistinct(rows: map<int, Row>, owner: int, answers: int -> seq<int>, count: nat, size: int, j: nat,
      k: nat)
    requires AllListings(rows, owner, answers) && size >= 1 && NoTieAcrossPages(rows, answers(0), size)
    requires j < k < |Fetched(answers, count, size)|
    ensures Fetched(answers, count, size)[j] != Fetched(answers, count, size)[k]
  {
    var all := Fetched(answers, count, size);
    FetchedAt(rows, owner, answers, count, size, |answers(0)|);
    if all[j] == all[k] {
      var p :| CutFrom(answers, size, p, j, all[j]);
      var q :| CutFrom(answers, size, q, k, all[k]);
      CutIsOnPage(rows, owner, answers, size, p, j, all[j]);
      CutIsOnPage(rows, owner, answers, size, q, k, all[k]);
      OnOnePage(rows, owner, size, answers(0), answers(p), answers(q), p, q, all[j]);
      OnOnePage(rows, owner, size, answers(0), answers(q), answers(p), q, p, all[j]);
      assert false;
    }
  }

  lemma FetchedTimes(rows: map<int, Row>, owner: int, answers: int -> seq<int>, count: nat, size: int, k: nat)
    requires AllListings(rows, owner, answers) && size >= 1 && k < |Fetched(answers, count, size)|
    ensures var id := Fetched(answers, count, size)[k];
      Listed(rows, owner, id) && k < |answers(0)| && Time(rows, id) == Time(rows, answers(0)[k])
  {
    FetchedAt(rows, owner, answers, count, size, |answers(0)|);
    var p :| CutFrom(answers, size, p, k, Fetched(answers, count, size)[k]);
    SameTimes(rows, owner, answers(p), answers(0), k);
    assert answers(p)[k] in answers(p);
  }

  lemma PagesFormAListing(rows: map<int, Row>, owner: int, answers: int -> seq<int>, count: nat, size: int)
    requires AllListings(rows, owner, answers) && size >= 1 && NoTieAcrossPages(rows, answers(0), size)
    requires Offset(count + 1, size) >= |answers(0)|
    ensures IsListing(rows, owner, Fetched(answers, count, size))
  {
    var all, list := Fetched(answers, count, size), answers(0);
    FetchedAt(rows, owner, answers, count, size, |list|);
    forall k: nat | k < |all| ensures Listed(rows, owner, all[k]) && Time(rows, all[k]) == Time(rows, list[k]) {
      FetchedTimes(rows, owner, answers, count, size, k);
    }
    forall j: nat, k: nat | j < k < |all| ensures all[j] != all[k] {
      FetchedDistinct(rows, owner, answers, count, size, j, k);
    }
    forall id ensures id in all <==> Listed(rows, owner, id) {
      if Listed(rows, owner, id) { assert id in list; SameSize(all, list, id); }
    }
  }

  /** A list without repeats that draws on another one of the same length misses nothing of it. */
  lemma SameSize(all: seq<int>, list: seq<int>, id: int)
    requires |all| == |list| && forall j, k :: 0 <= j < k < |all| ==> all[j] != all[k]
    requires (forall j, k :: 0 <= j < k < |list| ==> list[j] != list[k]) && (forall x :: x in all ==> x in list)
    requires id in list
    ensures id in all
  {
    DistinctCount(all);
    DistinctCount(list);
    if id !in all { SubsetCount(set x | x in all, (set x | x in list) - {id}); }
  }

  ghost predicate Repeats(s: seq<int>) {
    exists j, k :: 0 <= j < k < |s| && s[j] == s[k]
  }

  lemma TwicePresent(s: seq<int>, t: seq<int>, id: int)
    requires id in s && id in t
    ensures Repeats(s + t)
  {
    var j :| 0 <= j < |s| && s[j] == id;
    var k :| 0 <= k < |t| && t[k] == id;
    assert (s + t)[j] == (s + t)[|s| + k];
  }

  lemma RepeatsStay(s: seq<int>, t: seq<int>)
    requires Repeats(s)
    ensures Repeats(s + t)
  {
    var j, k :| 0 <= j < k < |s| && s[j] == s[k];
    assert (s + t)[j] == (s + t)[k];
  }

  /** The theorem on paging. With each of the pages 1 to ceil(total / size) fetched by its own
      query, together they list every live document exactly once and newest first, whatever answers
      the database gives, if and only if no page starts inside a group of equal created_at. */
  lemma PagesFormAListingIff(rows: map<int, Row>, owner: int, list: seq<int>, size: int, count: nat)
    requires IsListing(rows, owner, list) && size >= 1 && Offset(count + 1, size) >= |list|
    ensures NoTieAcrossPages(rows, list, size) <==> GoodPages(rows, owner, list, size, count)
  {
    if NoTieAcrossPages(rows, list, size) {
      forall answers: int -> seq<int> | AllListings(rows, owner, answers) && answers(0) == list
        ensures IsListing(rows, owner, Fetched(answers, count, size))
      {
        PagesFormAListing(rows, owner, answers, count, size);
      }
    } else {
      var p :| p >= 1 && 0 < Offset(p, size) < |list|
        && Time(rows, list[Offset(p, size) - 1]) <= Time(rows, list[Offset(p, size)]);
      TieSpoilsPages(rows, owner, list, size, count, p);
    }
  }

  ghost predicate GoodPages(rows: map<int, Row>, owner: int, list: seq<int>, size: int, count: nat)
    requires size >= 1
  {
    forall answers: int -> seq<int> :: AllListings(rows, owner, answers) && answers(0) == list ==>
      IsListing(rows, owner, Fetched(answers, count, size))
  }

  lemma TieSpoilsPages(rows: map<int, Row>, owner: int, list: seq<int>, size: int, count: nat, p: int)
    requires IsListing(rows, owner, list) && size >= 1 && Offset(count + 1, size) >= |list|
    requires p >= 1 && 0 < Offset(p, size) < |list|
      && Time(rows, list[Offset(p, size) - 1]) <= Time(rows, list[Offset(p, size)])
    ensures !GoodPages(rows, owner, list, size, count)
  {
    var other := TieMovesADocument(rows, owner, size, list, p);
    var answers := Substitute(list, p, other);
    if count < p { OffsetsGrow(count + 1, p, size); }
    TieRepeats(answers, count, size, p, list[Offset(p, size) - 1]);
    assert AllListings(rows, owner, answers) && answers(0) == list;
    RepeatsIsNoListing(rows, owner, Fetched(answers, count, size));
  }

  function Substitute(list: seq<int>, p: int, other: seq<int>): int -> seq<int> {
    (q: int) => if q == p then other else list
  }

  lemma RepeatsIsNoListing(rows: map<int, Row>, owner: int, s: seq<int>)
    requires Repeats(s)
    ensures !IsListing(rows, owner, s)
  {}

  lemma {:induction false} TieRepeats(answers: int -> seq<int>, count: nat, size: int, p: int, id: int)
    requires size >= 1 && p >= 2 && id in Page(answers(p - 1), p - 1, size) && id in Page(answers(p), p, size)
    ensures count >= p ==> Repeats(Fetched(answers, count, size))
  {
    if count > p {
      TieRepeats(answers, count - 1, size, p, id);
      RepeatsStay(Fetched(answers, count - 1, size), Page(answers(count), count, size));
    } else if count == p {
      assert id in Fetched(answers, p - 1, size);
      TwicePresent(Fetched(answers, p - 1, size), Page(answers(p), p, size), id);
    }
  }

  // ---- the pages that ListDocuments answers with ----

  /** What a call asks the database for, whatever it was asked. */
  function Requested(list: seq<int>, page: int, size: int): seq<int> { Page(list, ClampPage(page), ClampSize(size)) }

  predicate IsSize(size: int) { 1 <= size <= 100 }

  lemma PositionsOfPage(list: seq<int>, page: int, size: int, from: int, to: int)
    requires page >= 1 && size >= 1 && from == (page - 1) * size && to == page * size
    ensures forall k :: 0 <= k < |Page(list, page, size)| ==>
      0 <= from + k < |list| && Page(list, page, size)[k] == list[from + k]
    ensures |Page(list, page, size)| == if from >= |list| then 0 else if to <= |list| then size else |list| - from
  {
    assert from == Offset(page, size);
    assert to == Offset(page + 1, size);
    NextOffset(page, size);
    OffsetsGrow(1, page, size);
    PageAt(list, page, size);
  }

  /** These documents are the ones at positions from to to of the list, size of them where it is long enough. */
  predicate AreAt(rows: map<int, Row>, docs: seq<Doc>, list: seq<int>, from: int, to: int, size: int) {
    && |docs| == (if from >= |list| then 0 else if to <= |list| then size else |list| - from)
    && forall k :: 0 <= k < |docs| ==>
         0 <= from + k < |list| && list[from + k] in rows && docs[k] == Doc(list[from + k], rows[list[from + k]])
  }

  predicate AreAtPage(rows: map<int, Row>, docs: seq<Doc>, list: seq<int>, page: int, size: int) {
    AreAt(rows, docs, list, (page - 1) * size, page * size, size)
  }

  lemma PageIsAt(rows: map<int, Row>, docs: seq<Doc>, list: seq<int>, page: int, size: int, from: int, to: int)
    requires page >= 1 && size >= 1 && from == (page - 1) * size && to == page * size
    requires AreDocs(rows, Page(list, page, size), docs)
    ensures AreAt(rows, docs, list, from, to, size)
  {
    PositionsOfPage(list, page, size, from, to);
    var ids := Page(list, page, size);
    forall k | 0 <= k < |docs|
      ensures 0 <= from + k < |list| && list[from + k] in rows && docs[k] == Doc(list[from + k], rows[list[from + k]])
    {
      assert ids[k] == list[from + k] && docs[k] == Doc(ids[k], rows[ids[k]]);
    }
  }

  /** What a call gets, position by position: a page from 1 on and a size from 1 to 100 are taken as they
      are; a smaller page is answered like page 1, any other size like size 20. */
  lemma RequestedIsThePage(rows: map<int, Row>, docs: seq<Doc>, list: seq<int>, page: int, size: int)
    requires AreDocs(rows, Requested(list, page, size), docs)
    ensures AreAtPage(rows, docs, list, if page >= 1 then page else 1, if 1 <= size <= 100 then size else 20)
  {
    var p, s := if page >= 1 then page else 1, if 1 <= size <= 100 then size else 20;
    PageIsAt(rows, docs, list, p, s, (p - 1) * s, p * s);
  }

  /** The calls for pages 1 to count, page p answered out of answers(p). */
  function Calls(answers: int -> seq<int>, count: nat, size: int): seq<int> {
    if count == 0 then [] else Calls(answers, count - 1, size) + Requested(answers(count), count, size)
  }

  lemma {:induction false} CallsFetch(answers: int -> seq<int>, count: nat, size: int)
    ensures Calls(answers, count, size) == Fetched(answers, count, if IsSize(size) then size else 20)
  {
    if count > 0 { CallsFetch(answers, count - 1, size); }
  }

  ghost predicate GoodCalls(rows: map<int, Row>, owner: int, list: seq<int>, size: int, count: nat) {
    forall answers: int -> seq<int> :: AllListings(rows, owner, answers) && answers(0) == list ==>
      IsListing(rows, owner, Calls(answers, count, size))
  }

  /** The theorem for the calls ListDocuments(1, size), ..., ListDocuments(count, size) with any requested
      size, count of them being enough for the effective one. */
  lemma CallsFormAListingIff(rows: map<int, Row>, owner: int, list: seq<int>, size: int, count: nat)
    requires IsListing(rows, owner, list)
    requires count * (if IsSize(size) then size else 20) >= |list|
    ensures GoodCalls(rows, owner, list, size, count) <==>
      NoTieAcrossPages(rows, list, if IsSize(size) then size else 20)
  {
    var effective := if IsSize(size) then size else 20;
    assert Offset(count + 1, effective) == count * effective;
    PagesFormAListingIff(rows, owner, list, effective, count);
    if GoodPages(rows, owner, list, effective, count) {
      forall answers: int -> seq<int> | AllListings(rows, owner, answers) && answers(0) == list
        ensures IsListing(rows, owner, Calls(answers, count, size))
      {
        CallsFetch(answers, count, size);
      }
    }
    if GoodCalls(rows, owner, list, size, count) {
      forall answers: int -> seq<int> | AllListings(rows, owner, answers) && answers(0) == list
        ensures IsListing(rows, owner, Fetched(answers, count, effective))
      {
        CallsFetch(answers, count, size);
      }
    }
  }
}
