/** Searching the whole chain, and finding a match again through the paged read. */
module ChainSearch {
  import opened Bytes
  import opened Lines
  import opened Chain
  import opened ForwardRead
  import opened Paging

  /** The lines starting at or after since. */
  function From(ls: seq<Line>, since: int): seq<Line> {
    if ls == [] then []
    else (if since >= 0 && ls[0].offset < since then [] else [ls[0]]) + From(ls[1..], since)
  }

  /** The matches of a search: scanned lines from since on that contain the text and pass the filter. */
  function Matches(ls: seq<Line>, contains: Bytes -> bool, q: Query, since: int): seq<Line> {
    Hits(Hits(From(ls, since), contains), q.accepts)
  }

  function Offsets(ls: seq<Line>): seq<nat> {
    if ls == [] then [] else [ls[0].offset] + Offsets(ls[1..])
  }

  lemma {:induction false} FromConcat(a: seq<Line>, b: seq<Line>, since: int)
    ensures From(a + b, since) == From(a, since) + From(b, since)
  {
    if a == [] {
      assert a + b == b;
    } else {
      assert (a + b)[1..] == a[1..] + b;
      var head := if since >= 0 && a[0].offset < since then [] else [a[0]];
      assert From(a, since) == head + From(a[1..], since);
      assert From(a + b, since) == head + From(a[1..] + b, since);
      FromConcat(a[1..], b, since);
      Assoc(head, From(a[1..], since), From(b, since));
    }
  }

  lemma {:induction false} MatchesConcat(a: seq<Line>, b: seq<Line>, contains: Bytes -> bool, q: Query, since: int)
    ensures Matches(a + b, contains, q, since) == Matches(a, contains, q, since) + Matches(b, contains, q, since)
  {
    FromConcat(a, b, since);
    HitsConcat(From(a, since), From(b, since), contains);
    HitsConcat(Hits(From(a, since), contains), Hits(From(b, since), contains), q.accepts);
  }

  lemma {:induction false} OffsetsConcat(a: seq<Line>, b: seq<Line>)
    ensures Offsets(a + b) == Offsets(a) + Offsets(b) && |Offsets(a)| == |a|
  {
    if a == [] {
      assert a + b == b;
    } else {
      assert (a + b)[1..] == a[1..] + b;
      OffsetsConcat(a[1..], b);
    }
  }

  function Counts(l: Line, contains: Bytes -> bool, q: Query, since: int): bool {
    !(since >= 0 && l.offset < since) && l.text != [] && contains(l.text) && q.accepts(l.text)
  }

  lemma {:induction false} MatchesOne(l: Line, contains: Bytes -> bool, q: Query, since: int)
    ensures Matches([l], contains, q, since) == if Counts(l, contains, q, since) then [l] else []
  {
    assert [l][1..] == [] && From([], since) == [] && Hits([], contains) == [] && Hits([], q.accepts) == [];
    assert From([l], since) == if since >= 0 && l.offset < since then [] else [l];
    assert [l] + [] == [l];
    HitsHead(l, [], contains);
    HitsHead(l, [], q.accepts);
  }

  /** What a search has found: the count of the matches and the offsets of the first `limit` of them. */
  ghost predicate Found(ms: seq<Line>, limit: nat, offsets: seq<nat>, total: nat) {
    && total == |ms|
    && offsets == Offsets(ms[..if |ms| <= limit then |ms| else limit])
  }

  lemma {:induction false} FoundMore(ms: seq<Line>, limit: nat, offsets: seq<nat>, total: nat, l: Line)
    requires Found(ms, limit, offsets, total)
    ensures Found(ms + [l], limit, if |offsets| < limit then offsets + [l.offset] else offsets, total + 1)
  {
    hide Offsets;
    var n := if |ms| <= limit then |ms| else limit;
    OffsetsConcat(ms[..n], []);
    if n < limit {
      assert ms[..n] == ms && (ms + [l])[..n + 1] == ms + [l];
      OffsetsConcat(ms, [l]);
      OffsetsOne(l);
    } else {
      assert (ms + [l])[..limit] == ms[..limit];
    }
  }

  lemma {:induction false} OffsetsOne(l: Line)
    ensures Offsets([l]) == [l.offset]
  {
    assert [l][1..] == [];
  }

  /** Scans one file, adding to what the files before it gave. */
  method SearchFile(cf: ChainFile, contains: Bytes -> bool, limit: nat, q: Query, since: int,
                    offsets0: seq<nat>, total0: nat, ghost ms0: seq<Line>)
    returns (offsets: seq<nat>, total: nat)
    requires NoCr(cf.data) && Found(ms0, limit, offsets0, total0)
    ensures Found(ms0 + Matches(FileAfter(cf, 0, q.maxLine), contains, q, since), limit, offsets, total)
  {
    FileAfterZero(cf, q.maxLine);
    hide Matches, Found, FileAfter, LinesIn, NextLf, ShortPrefix;
    offsets, total := offsets0, total0;
    ghost var all := FileAfter(cf, 0, q.maxLine);
    ghost var seen, rest: seq<Line> := [], all;
    assert Matches(seen, contains, q, since) == [] by {
      NoMatches(contains, q, since);
    }
    assert ms0 + Matches(seen, contains, q, since) == ms0;

    var physOffset := 0;
    var scanned, raw, next := Scan(cf.data, physOffset, q.maxLine);
    while scanned
      invariant physOffset <= |cf.data| && Scanned(cf.data, physOffset, q.maxLine, scanned, raw, next)
      invariant all == seen + rest
      invariant rest == ShortPrefix(LinesIn(cf.data, physOffset, |cf.data|, cf.start), q.maxLine)
      invariant Found(ms0 + Matches(seen, contains, q, since), limit, offsets, total)
      decreases |cf.data| - physOffset
    {
      ghost var l := Line(cf.data[physOffset..NextLf(cf.data, physOffset, |cf.data|)], cf.start + physOffset);
      ScanStep(cf.data, physOffset, cf.start, q.maxLine);
      assert raw == l.text;
      var logicalOffset := cf.start + physOffset;
      MatchesConcat(seen, [l], contains, q, since);
      MatchesOne(l, contains, q, since);
      ghost var before := ms0 + Matches(seen, contains, q, since);
      if !(since >= 0 && logicalOffset < since) && |raw| > 0 && contains(raw) && q.accepts(raw) {
        FoundMore(before, limit, offsets, total, l);
        assert ms0 + Matches(seen + [l], contains, q, since) == before + [l];
        total := total + 1;
        if |offsets| < limit {
          offsets := offsets + [logicalOffset];
        }
      } else {
        assert ms0 + Matches(seen + [l], contains, q, since) == before;
      }
      seen, rest := seen + [l], rest[1..];
      physOffset := next;
      scanned, raw, next := Scan(cf.data, physOffset, q.maxLine);
    }
    ScanEnds(cf.data, physOffset, cf.start, q.maxLine);
    assert seen == all;
  }

  lemma {:induction false} NoMatches(contains: Bytes -> bool, q: Query, since: int)
    ensures Matches([], contains, q, since) == []
  {}

  /** The next scanned token, and what is left to scan after it. */
  lemma {:induction false} ScanStep(b: Bytes, pos: nat, base: nat, maxLine: nat)
    requires pos < |b| && NextLf(b, pos, |b|) - pos < maxLine
    ensures
      var i := NextLf(b, pos, |b|);
      ShortPrefix(LinesIn(b, pos, |b|, base), maxLine) ==
      [Line(b[pos..i], base + pos)]
      + ShortPrefix(LinesIn(b, if i == |b| then i else i + 1, |b|, base), maxLine)
  {
    hide LinesIn, NextLf;
    LinesStep(b, pos, |b|, base);
    LinesNone(b, |b|, base);
    var i := NextLf(b, pos, |b|);
    var ls := LinesIn(b, pos, |b|, base);
    assert ls == [Line(b[pos..i], base + pos)] + LinesIn(b, if i == |b| then i else i + 1, |b|, base);
    assert ls[1..] == LinesIn(b, if i == |b| then i else i + 1, |b|, base);
  }

  /** Scans the chain oldest to newest: the total and the first `limit` offsets of the matches. */
  method Search(fc: FileChain, contains: Bytes -> bool, limit: nat, q: Query, since: int)
    returns (offsets: seq<nat>, total: nat)
    requires NoCrIn(fc.files)
    ensures Found(Matches(After(fc.files, 0, 0, q.maxLine), contains, q, since), limit, offsets, total)
  {
    offsets, total := [], 0;
    ghost var ms: seq<Line> := [];
    assert Found(ms, limit, offsets, total);
    hide *;
    NoMatches(contains, q, since);
    ghost var all := Matches(After(fc.files, 0, 0, q.maxLine), contains, q, since);
    ghost var left := all;
    for k := 0 to |fc.files|
      invariant Found(ms, limit, offsets, total)
      invariant all == ms + left && left == Matches(After(fc.files, k, 0, q.maxLine), contains, q, since)
    {
      CrFree(fc.files, k);
      offsets, total := SearchFile(fc.files[k], contains, limit, q, since, offsets, total, ms);
      ghost var here := Matches(FileAfter(fc.files[k], 0, q.maxLine), contains, q, since);
      MatchesStep(fc.files, k, contains, q, since);
      left := Matches(After(fc.files, k + 1, 0, q.maxLine), contains, q, since);
      Assoc(ms, here, left);
      ms := ms + here;
    }
    AfterNone(fc.files, 0, q.maxLine);
    assert ms + [] == ms;
  }

  lemma {:induction false} MatchesStep(files: seq<ChainFile>, k: nat, contains: Bytes -> bool, q: Query, since: int)
    requires k < |files|
    ensures Matches(After(files, k, 0, q.maxLine), contains, q, since)
         == Matches(FileAfter(files[k], 0, q.maxLine), contains, q, since)
            + Matches(After(files, k + 1, 0, q.maxLine), contains, q, since)
  {
    hide *;
    AfterStep(files, k, 0, q.maxLine);
    MatchesConcat(FileAfter(files[k], 0, q.maxLine), After(files, k + 1, 0, q.maxLine), contains, q, since);
  }

  // ---- Finding a match again --------------------------------------------------------

  /** A scan from the i-th scanned line of a file delivers that line and those after it. */
  lemma {:induction false} ShortPrefixFrom(ls: seq<Line>, i: nat, maxLine: nat)
    requires i < |ShortPrefix(ls, maxLine)|
    ensures ShortPrefix(ls[i..], maxLine) == ShortPrefix(ls, maxLine)[i..]
  {
    if i > 0 {
      assert ls[1..][i - 1..] == ls[i..];
      ShortPrefixFrom(ls[1..], i - 1, maxLine);
    } else {
      assert ls[0..] == ls;
    }
  }

  lemma {:induction false} RestDef(files: seq<ChainFile>, k: nat, p: nat, maxLine: nat)
    requires k < |files| && p <= |files[k].data|
    ensures Rest(files, k, p, maxLine)
         == ShortPrefix(LinesIn(files[k].data, p, |files[k].data|, files[k].start), maxLine)
            + After(files, k + 1, 0, maxLine)
  {}

  lemma {:induction false} LinesOfDef(b: Bytes, base: nat)
    ensures LinesOf(b, base) == LinesIn(b, 0, |b|, base)
  {}

  /** A scan of a file from its i-th scanned line on. */
  lemma {:induction false} ScanFrom(b: Bytes, base: nat, i: nat, maxLine: nat) returns (p: nat)
    requires i < |ShortPrefix(LinesIn(b, 0, |b|, base), maxLine)|
    ensures p <= |b| && ShortPrefix(LinesIn(b, 0, |b|, base), maxLine)[i].offset == base + p
    ensures ShortPrefix(LinesIn(b, 0, |b|, base), maxLine)[i..] == ShortPrefix(LinesIn(b, p, |b|, base), maxLine)
  {
    hide *;
    var ls := LinesIn(b, 0, |b|, base);
    FromLine(b, base, i);
    ShortPrefixFrom(ls, i, maxLine);
    p := ls[i].offset - base;
  }

  lemma {:induction false} LineIsFrom(b: Bytes, base: nat, ls: seq<Line>, i: nat)
    requires i < |ls| && LineIs(b, 0, |b|, base, ls, i)
    ensures 0 <= ls[i].offset - base <= |b| && ls[i..] == LinesIn(b, ls[i].offset - base, |b|, base)
  {
    hide LinesIn;
  }

  lemma {:induction false} FromLine(b: Bytes, base: nat, i: nat)
    requires i < |LinesIn(b, 0, |b|, base)|
    ensures var ls := LinesIn(b, 0, |b|, base);
            0 <= ls[i].offset - base <= |b| && ls[i..] == LinesIn(b, ls[i].offset - base, |b|, base)
  {
    hide *;
    LineAt(b, 0, |b|, base, i);
    LineIsFrom(b, base, LinesIn(b, 0, |b|, base), i);
  }

  /** Where the i-th scanned line of file k is. */
  lemma {:induction false} ScannedHere(files: seq<ChainFile>, k: nat, i: nat, maxLine: nat) returns (p: nat)
    requires k < |files| && i < |FileAfter(files[k], 0, maxLine)|
    ensures p <= |files[k].data| && FileAfter(files[k], 0, maxLine)[i].offset == files[k].start + p
    ensures FileAfter(files[k], 0, maxLine)[i..] + After(files, k + 1, 0, maxLine) == Rest(files, k, p, maxLine)
  {
    hide *;
    FileAfterZero(files[k], maxLine);
    LinesOfDef(files[k].data, files[k].start);
    p := ScanFrom(files[k].data, files[k].start, i, maxLine);
    RestDef(files, k, p, maxLine);
  }

  /** Where the i-th scanned line of the chain is. */
  lemma {:induction false} ScannedAt(files: seq<ChainFile>, k: nat, i: nat, maxLine: nat) returns (j: nat, p: nat)
    requires k <= |files| && i < |After(files, k, 0, maxLine)|
    ensures k <= j < |files| && p <= |files[j].data|
    ensures After(files, k, 0, maxLine)[i].offset == files[j].start + p
    ensures After(files, k, 0, maxLine)[i..] == Rest(files, j, p, maxLine)
    decreases |files| - k
  {
    assert k < |files|;
    hide *;
    var head, tail := FileAfter(files[k], 0, maxLine), After(files, k + 1, 0, maxLine);
    AfterStep(files, k, 0, maxLine);
    DropConcat(head, tail, i);
    if i < |head| {
      j := k;
      p := ScannedHere(files, k, i, maxLine);
    } else {
      j, p := ScannedAt(files, k + 1, i - |head|, maxLine);
    }
  }

  lemma {:induction false} FromMembers(ls: seq<Line>, since: int)
    ensures forall l <- From(ls, since) :: l in ls && (since >= 0 ==> l.offset >= since)
  {
    if ls != [] {
      FromMembers(ls[1..], since);
    }
  }

  /** The record at a returned offset is the one a forward read of one line from there returns. */
  lemma {:induction false} FoundIsRead(fc: FileChain, contains: Bytes -> bool, q: Query, since: int, l: Line, page: Page)
    requires fc.Valid() && l in Matches(After(fc.files, 0, 0, q.maxLine), contains, q, since)
    requires IsForwardPage(fc, l.offset, q.(count := 1), page)
    ensures page.lines == [l] && page.firstOffset == l.offset
  {
    hide *;
    var scanned := After(fc.files, 0, 0, q.maxLine);
    MatchIsScanned(scanned, contains, q, since, l);
    var i :| 0 <= i < |scanned| && scanned[i] == l;
    var k, p := ScannedAt(fc.files, 0, i, q.maxLine);
    SizeOf(fc, k);
    RestIsAfter(fc, k, p, q.maxLine);
    assert scanned[i..] == [l] + scanned[i + 1..];
    HitsHead(l, scanned[i + 1..], q.accepts);
    FirstOfPage(fc, l.offset, q, l, page);
  }

  lemma {:induction false} SizeOf(fc: FileChain, k: nat)
    requires fc.Valid() && k < |fc.files|
    ensures fc.files[k].size == |fc.files[k].data|
  {}

  lemma {:induction false} FirstOfPage(fc: FileChain, o: nat, q: Query, l: Line, page: Page)
    requires IsForwardPage(fc, o, q.(count := 1), page)
    requires var ms := Hits(After(fc.files, 0, o, q.maxLine), q.accepts); ms != [] && ms[0] == l
    ensures page.lines == [l] && page.firstOffset == l.offset
  {
    hide After, Hits;
  }

  lemma {:induction false} MatchIsScanned(ls: seq<Line>, contains: Bytes -> bool, q: Query, since: int, l: Line)
    requires l in Matches(ls, contains, q, since)
    ensures l in ls && l.text != [] && q.accepts(l.text)
  {
    FromMembers(ls, since);
    HitsMembers(From(ls, since), contains);
    HitsMembers(Hits(From(ls, since), contains), q.accepts);
  }

  lemma {:induction false} AfterIncreasing(fc: FileChain, k: nat, o: nat, maxLine: nat)
    requires fc.Valid() && k <= |fc.files|
    ensures var ls := After(fc.files, k, o, maxLine);
            && (forall i | 0 <= i < |ls| :: k < |fc.files| && ls[i].offset >= fc.files[k].start)
            && Increasing(ls)
    decreases |fc.files| - k
  {
    if k < |fc.files| {
      hide LinesIn, After, FileAfter, FileChain.Valid, Increasing;
      var cf := fc.files[k];
      AfterIncreasing(fc, k + 1, o, maxLine);
      AfterStep(fc.files, k, o, maxLine);
      FileIncreasing(cf, o, maxLine);
      NextFile(fc, k);
      IncreasingConcat(FileAfter(cf, o, maxLine), After(fc.files, k + 1, o, maxLine), cf.start + |cf.data|);
    } else {
      AfterNone(fc.files, o, maxLine);
    }
  }

  lemma {:induction false} NextFile(fc: FileChain, k: nat)
    requires fc.Valid() && k < |fc.files|
    ensures k + 1 < |fc.files| ==> fc.files[k + 1].start == fc.files[k].start + |fc.files[k].data|
  {}

  lemma {:induction false} FileIncreasing(cf: ChainFile, o: nat, maxLine: nat)
    ensures var ls := FileAfter(cf, o, maxLine);
            && (forall i | 0 <= i < |ls| :: cf.start <= ls[i].offset < cf.start + |cf.data|)
            && Increasing(ls)
  {
    hide LinesIn, ShortPrefix, Increasing;
    var lo := if o <= cf.start then 0 else o - cf.start;
    if lo <= |cf.data| {
      LinesOffsets(cf.data, lo, |cf.data|, cf.start);
      var ls := LinesIn(cf.data, lo, |cf.data|, cf.start);
      assert forall i | 0 <= i < |ls| :: ls[i] in ls;
      IncreasingPrefix(ShortPrefix(ls, maxLine), ls);
    }
    IncreasingNone();
  }

  lemma {:induction false} LinesIncreasing(b: Bytes, lo: nat, hi: nat, base: nat)
    requires lo <= hi <= |b|
    ensures Increasing(LinesIn(b, lo, hi, base))
  {
    LinesOffsets(b, lo, hi, base);
    hide LinesIn;
  }

  lemma {:induction false} IncreasingNone()
    ensures Increasing([])
  {}

  lemma {:induction false} IncreasingPrefix(head: seq<Line>, ls: seq<Line>)
    requires head <= ls && forall j, k | 0 <= j < k < |ls| :: ls[j].offset + |ls[j].text| < ls[k].offset
    ensures Increasing(head)
  {}

  lemma {:induction false} IncreasingConcat(a: seq<Line>, b: seq<Line>, at: nat)
    requires Increasing(a) && Increasing(b)
    requires (forall i | 0 <= i < |a| :: a[i].offset < at) && forall i | 0 <= i < |b| :: b[i].offset >= at
    ensures Increasing(a + b)
  {}

  ghost predicate Increasing(ls: seq<Line>) {
    forall i, j | 0 <= i < j < |ls| :: ls[i].offset < ls[j].offset
  }

  lemma {:induction false} HitsIncreasing(ls: seq<Line>, f: Bytes -> bool)
    requires Increasing(ls)
    ensures Increasing(Hits(ls, f))
  {
    if ls != [] {
      HitsIncreasing(ls[1..], f);
      HitsMembers(ls[1..], f);
      var rest := Hits(ls[1..], f);
      assert forall i | 0 <= i < |rest| :: rest[i] in rest;
    }
  }

  lemma {:induction false} FromIncreasing(ls: seq<Line>, since: int)
    requires Increasing(ls)
    ensures Increasing(From(ls, since))
  {
    if ls != [] {
      FromIncreasing(ls[1..], since);
      FromMembers(ls[1..], since);
      var rest := From(ls[1..], since);
      assert forall i | 0 <= i < |rest| :: rest[i] in rest;
    }
  }

  lemma {:induction false} OffsetsIncrease(ls: seq<Line>)
    ensures |Offsets(ls)| == |ls| && forall i | 0 <= i < |ls| :: Offsets(ls)[i] == ls[i].offset
  {
    if ls != [] {
      OffsetsIncrease(ls[1..]);
    }
  }

  /** Search results: min(limit, total) offsets, strictly increasing and none below since. */
  lemma {:induction false} FoundIncreasing(fc: FileChain, contains: Bytes -> bool, limit: nat, q: Query, since: int, offsets: seq<nat>, total: nat)
    requires fc.Valid()
    requires Found(Matches(After(fc.files, 0, 0, q.maxLine), contains, q, since), limit, offsets, total)
    ensures |offsets| == if total <= limit then total else limit
    ensures forall i, j | 0 <= i < j < |offsets| :: offsets[i] < offsets[j]
    ensures since >= 0 ==> forall i | 0 <= i < |offsets| :: offsets[i] >= since
  {
    var ls := After(fc.files, 0, 0, q.maxLine);
    MatchesIncreasing(fc, contains, q, since);
    hide After, Hits, From, Offsets, Increasing, FileChain.Valid;
    FromMembers(ls, since);
    HitsMembers(From(ls, since), contains);
    HitsMembers(Hits(From(ls, since), contains), q.accepts);
    var ms := Matches(ls, contains, q, since);
    assert forall i | 0 <= i < |ms| :: ms[i] in ms;
    OffsetsOf(ms, if |ms| <= limit then |ms| else limit);
  }

  lemma {:induction false} MatchesIncreasing(fc: FileChain, contains: Bytes -> bool, q: Query, since: int)
    requires fc.Valid()
    ensures Increasing(Matches(After(fc.files, 0, 0, q.maxLine), contains, q, since))
  {
    var ls := After(fc.files, 0, 0, q.maxLine);
    AfterIncreasing(fc, 0, 0, q.maxLine);
    hide After, Hits, From, Increasing, FileChain.Valid;
    FromIncreasing(ls, since);
    HitsIncreasing(From(ls, since), contains);
    HitsIncreasing(Hits(From(ls, since), contains), q.accepts);
  }

  lemma {:induction false} OffsetsOf(ms: seq<Line>, n: nat)
    requires n <= |ms| && Increasing(ms)
    ensures var r := Offsets(ms[..n]);
            && |r| == n && (forall i | 0 <= i < n :: r[i] == ms[i].offset)
            && forall i, j | 0 <= i < j < n :: r[i] < r[j]
  {
    hide Offsets;
    OffsetsIncrease(ms[..n]);
  }
}
