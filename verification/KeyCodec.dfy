// The object keys of internal/infra/minio/object_store.go and the bitmap keys of
// internal/infra/redis/upload_progress_store.go, with parsers that invert them.
module KeyCodec {
  import opened Prelude

  // ---- decimal numbers, as %d prints them ----

  function Digit(d: nat): char
    requires d < 10
  {
    "0123456789"[d]
  }

  function Natural(n: nat): (s: string)
    ensures |s| > 0
    ensures forall k :: 0 <= k < |s| ==> '0' <= s[k] <= '9'
  {
    if n < 10 then [Digit(n)] else Natural(n / 10) + [Digit(n % 10)]
  }

  function Decimal(n: int): (s: string)
    ensures |s| > 0
    ensures forall k :: 0 <= k < |s| ==> s[k] == '-' || '0' <= s[k] <= '9'
  {
    if n < 0 then "-" + Natural(-n) else Natural(n)
  }

  function ParseNatural(s: string): int {
    if s == [] then 0
    else ParseNatural(s[..|s| - 1]) * 10 + (s[|s| - 1] as int - '0' as int)
  }

  function ParseDecimal(s: string): int {
    if |s| > 0 && s[0] == '-' then -ParseNatural(s[1..]) else ParseNatural(s)
  }

  lemma {:induction false} NaturalRoundTrip(n: nat)
    ensures ParseNatural(Natural(n)) == n
  {
    if n < 10 {
      assert Natural(n)[..0] == [];
    } else {
      NaturalRoundTrip(n / 10);
      var s := Natural(n);
      assert s[..|s| - 1] == Natural(n / 10);
    }
  }

  lemma DecimalRoundTrip(n: int)
    ensures ParseDecimal(Decimal(n)) == n
  {
    if n < 0 {
      assert Decimal(n)[1..] == Natural(-n);
      NaturalRoundTrip(-n);
    } else {
      NaturalRoundTrip(n);
    }
  }

  // ---- splitting at the first or at the last separator ----

  function SplitLast(s: string, sep: char): Option<(string, string)> {
    if s == [] then None
    else if s[|s| - 1] == sep then Some((s[..|s| - 1], []))
    else match SplitLast(s[..|s| - 1], sep)
      case None => None
      case Some((a, b)) => Some((a, b + [s[|s| - 1]]))
  }

  function SplitFirst(s: string, sep: char): (r: Option<(string, string)>)
    ensures r.Some? ==> sep !in r.value.0
  {
    if s == [] then None
    else if s[0] == sep then Some(([], s[1..]))
    else match SplitFirst(s[1..], sep)
      case None => None
      case Some((a, b)) => Some(([s[0]] + a, b))
  }

  lemma {:induction false} SplitLastJoins(a: string, sep: char, b: string)
    requires sep !in b
    ensures SplitLast(a + [sep] + b, sep) == Some((a, b))
  {
    var s := a + [sep] + b;
    if b == [] {
      assert s[..|s| - 1] == a;
    } else {
      assert s[..|s| - 1] == a + [sep] + b[..|b| - 1];
      SplitLastJoins(a, sep, b[..|b| - 1]);
      assert b[..|b| - 1] + [b[|b| - 1]] == b;
    }
  }

  lemma {:induction false} SplitLastNeedsSeparator(s: string, sep: char)
    ensures SplitLast(s, sep).None? <==> sep !in s
  {
    if s != [] {
      SplitLastNeedsSeparator(s[..|s| - 1], sep);
      assert s == s[..|s| - 1] + [s[|s| - 1]];
    }
  }

  lemma {:induction false} SplitFirstJoins(a: string, sep: char, b: string)
    requires sep !in a
    ensures SplitFirst(a + [sep] + b, sep) == Some((a, b))
  {
    var s := a + [sep] + b;
    if a == [] {
      assert s[1..] == b;
    } else {
      assert s[1..] == a[1..] + [sep] + b;
      SplitFirstJoins(a[1..], sep, b);
      assert [a[0]] + a[1..] == a;
    }
  }

  // ---- the keys ----

  const CHUNKS := "chunks/"
  const MERGED := "merged/"
  const UPLOAD := "upload:"

  function PartKey(md5: string, index: int): string {
    CHUNKS + (md5 + ['/'] + Decimal(index))
  }

  function MergedKey(md5: string, fileName: string): string {
    MERGED + (md5 + ['/'] + fileName)
  }

  function ProgressKey(md5: string, owner: int): string {
    UPLOAD + (md5 + [':'] + Decimal(owner))
  }

  lemma Regroup(a: string, b: string, c: string, d: string)
    ensures a + b + c + d == a + (b + c + d)
  {}

  /** The keys as other programs read them. */
  lemma KeysAreSpelled(md5: string, index: int, fileName: string, owner: int)
    ensures PartKey(md5, index) == "chunks/" + md5 + "/" + Decimal(index)
    ensures MergedKey(md5, fileName) == "merged/" + md5 + "/" + fileName
    ensures ProgressKey(md5, owner) == "upload:" + md5 + ":" + Decimal(owner)
  {
    assert "/" == ['/'] && ":" == [':'];
    Regroup("chunks/", md5, "/", Decimal(index));
    Regroup("merged/", md5, "/", fileName);
    Regroup("upload:", md5, ":", Decimal(owner));
  }

  function ParsePartKey(key: string): Option<(string, int)> {
    if !(CHUNKS <= key) then None
    else match SplitLast(key[|CHUNKS|..], '/')
      case None => None
      case Some((md5, n)) => Some((md5, ParseDecimal(n)))
  }

  function ParseProgressKey(key: string): Option<(string, int)> {
    if !(UPLOAD <= key) then None
    else match SplitLast(key[|UPLOAD|..], ':')
      case None => None
      case Some((md5, n)) => Some((md5, ParseDecimal(n)))
  }

  function ParseMergedKey(key: string): Option<(string, string)> {
    if !(MERGED <= key) then None else SplitFirst(key[|MERGED|..], '/')
  }

  lemma PartKeyIsNoMergedKey(md5: string, index: int)
    ensures ParseMergedKey(PartKey(md5, index)) == None
  {
    assert PartKey(md5, index)[0] == 'c' && MERGED[0] == 'm';
  }

  /** Part keys can be read back for every md5 string, slashes included: the last separator decides. */
  lemma PartKeyRoundTrip(md5: string, index: int)
    ensures ParsePartKey(PartKey(md5, index)) == Some((md5, index))
    ensures ParseMergedKey(PartKey(md5, index)) == None
  {
    assert PartKey(md5, index)[|CHUNKS|..] == md5 + ['/'] + Decimal(index);
    SplitLastJoins(md5, '/', Decimal(index));
    DecimalRoundTrip(index);
    PartKeyIsNoMergedKey(md5, index);
  }

  lemma ProgressKeyRoundTrip(md5: string, owner: int)
    ensures ParseProgressKey(ProgressKey(md5, owner)) == Some((md5, owner))
  {
    assert ProgressKey(md5, owner)[|UPLOAD|..] == md5 + [':'] + Decimal(owner);
    SplitLastJoins(md5, ':', Decimal(owner));
    DecimalRoundTrip(owner);
  }

  /** Merged keys can be read back exactly for the md5 strings without a slash. */
  lemma MergedKeyRoundTrip(md5: string, fileName: string)
    ensures ParseMergedKey(MergedKey(md5, fileName)) == Some((md5, fileName)) <==> '/' !in md5
    ensures ParsePartKey(MergedKey(md5, fileName)) == None
  {
    var key := MergedKey(md5, fileName);
    assert key[|MERGED|..] == md5 + ['/'] + fileName;
    if '/' !in md5 {
      SplitFirstJoins(md5, '/', fileName);
    }
    assert key[0] == 'm' && CHUNKS[0] == 'c';
  }

  lemma PartKeyInjective(m: string, i: int, m': string, i': int)
    requires PartKey(m, i) == PartKey(m', i')
    ensures m == m' && i == i'
  {
    PartKeyRoundTrip(m, i);
    PartKeyRoundTrip(m', i');
  }

  lemma ProgressKeyInjective(m: string, o: int, m': string, o': int)
    requires ProgressKey(m, o) == ProgressKey(m', o')
    ensures m == m' && o == o'
  {
    ProgressKeyRoundTrip(m, o);
    ProgressKeyRoundTrip(m', o');
  }

  lemma MergedKeyInjective(m: string, n: string, m': string, n': string)
    requires '/' !in m && '/' !in m'
    requires MergedKey(m, n) == MergedKey(m', n')
    ensures m == m' && n == n'
  {
    MergedKeyRoundTrip(m, n);
    MergedKeyRoundTrip(m', n');
  }

  lemma PartAndMergedKeysDiffer(m: string, i: int, m': string, n': string)
    ensures PartKey(m, i) != MergedKey(m', n')
  {
    PartKeyRoundTrip(m, i);
    MergedKeyRoundTrip(m', n');
  }

  /** A key whose md5 and file name are both slash-free is shared with no other md5 at all. */
  lemma PlainMergedKeyIsPrivate(m: string, n: string, m': string, n': string)
    requires '/' !in m && '/' !in n
    requires MergedKey(m, n) == MergedKey(m', n')
    ensures m == m' && n == n'
  {
    var rest := m + ['/'] + n;
    assert MergedKey(m, n)[|MERGED|..] == rest;
    assert MergedKey(m', n')[|MERGED|..] == m' + ['/'] + n';
    assert rest[|m'|] == '/';
    assert |m'| == |m|;
    assert m == rest[..|m|] && m' == rest[..|m|];
    assert n == rest[|m| + 1..] && n' == rest[|m| + 1..];
  }

  ghost predicate IsShared(md5: string, fileName: string) {
    exists m, n :: (m, n) != (md5, fileName) && MergedKey(m, n) == MergedKey(md5, fileName)
  }

  /** A merged key belongs to more than one upload exactly if its md5 or its file name has a slash. */
  lemma MergedKeyIsSharedIff(md5: string, fileName: string)
    ensures IsShared(md5, fileName) <==> '/' in md5 || '/' in fileName
  {
    if '/' in md5 {
      var k :| 0 <= k < |md5| && md5[k] == '/';
      assert md5 + ['/'] + fileName == md5[..k] + ['/'] + (md5[k + 1..] + ['/'] + fileName);
      assert MergedKey(md5[..k], md5[k + 1..] + ['/'] + fileName) == MergedKey(md5, fileName);
    } else if '/' in fileName {
      var k :| 0 <= k < |fileName| && fileName[k] == '/';
      assert md5 + ['/'] + fileName == (md5 + ['/'] + fileName[..k]) + ['/'] + fileName[k + 1..];
      assert MergedKey(md5 + ['/'] + fileName[..k], fileName[k + 1..]) == MergedKey(md5, fileName);
    } else if IsShared(md5, fileName) {
      var m, n :| (m, n) != (md5, fileName) && MergedKey(m, n) == MergedKey(md5, fileName);
      PlainMergedKeyIsPrivate(md5, fileName, m, n);
    }
  }

  /** Under one md5 the merged key determines the file name. */
  lemma SameMd5SameName(md5: string, n: string, n': string)
    requires MergedKey(md5, n) == MergedKey(md5, n')
    ensures n == n'
  {
    assert MergedKey(md5, n)[|MERGED| + |md5| + 1..] == n;
    assert MergedKey(md5, n')[|MERGED| + |md5| + 1..] == n';
  }
}
