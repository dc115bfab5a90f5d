/**
 What pages and searches hold, told in the bytes of the files: for any place in any file, whether the
 line there is returned, and when only because the page was full.
 */
module PageContents {
  import opened Bytes
  import opened Lines
  import opened Chain
  import opened ForwardRead
  import opened BackwardRead
  import opened Paging
  import ChainSearch

  /** b[p..e] is a line of b[lo..hi]: from the start or an LF to the end or an LF, with no LF in it. */
  predicate IsLine(b: Bytes, lo: nat, p: nat, e: nat, hi: nat) {
    && lo <= p <= e <= hi <= |b| && p < hi
    && (p == lo || b[p - 1] == LF) && (e == hi || b[e] == LF)
    && forall i | p <= i < e :: b[i] != LF
  }

  /** t is b without the CRs at its end. */
  predicate Trims(b: Bytes, t: Bytes) {
    && t <= b && (forall i | |t| <= i < |b| :: b[i] == CR)
    && (t == [] || t[|t| - 1] != CR)
  }

  // ---- Lines ---------------------------------------------------------------------------

  lemma {:induction false} LineFound(b: Bytes, lo: nat, p: nat, e: nat, hi: nat, base: nat)
    requires IsLine(b, lo, p, e, hi)
    ensures Line(b[p..e], base + p) in LinesIn(b, lo, hi, base)
  {
    LinesAt(b, lo, p, hi, base);
    LinesStep(b, p, hi, base);
    if e < hi {
      NextLfIs(b, p, e, hi);
    }
    assert NextLf(b, p, hi) == e;
    hide LinesIn, NextLf;
    var l := Line(b[p..e], base + p);
    assert LinesIn(b, p, hi, base)[0] == l;
  }

  /** The lines of a stretch of bytes are its lines, whatever their number. */
  lemma {:induction false} LinesExactly(b: Bytes, lo: nat, hi: nat, base: nat, l: Line)
    requires lo <= hi <= |b|
    ensures l in LinesIn(b, lo, hi, base) <==> exists p: nat, e: nat :: IsLine(b, lo, p, e, hi) && l == Line(b[p..e], base + p)
    decreases hi - lo
  {
    hide LinesIn, NextLf;
    if l in LinesIn(b, lo, hi, base) {
      var p, e := LineIn(b, lo, hi, base, l);
      assert IsLine(b, lo, p, e, hi) && l == Line(b[p..e], base + p);
    } else {
      forall p: nat, e: nat | IsLine(b, lo, p, e, hi) ensures l != Line(b[p..e], base + p) {
        LineFound(b, lo, p, e, hi, base);
      }
    }
  }

  lemma {:induction false} LineIn(b: Bytes, lo: nat, hi: nat, base: nat, l: Line) returns (p: nat, e: nat)
    requires lo <= hi <= |b| && l in LinesIn(b, lo, hi, base)
    ensures IsLine(b, lo, p, e, hi) && l == Line(b[p..e], base + p)
    decreases hi - lo
  {
    hide LinesIn, NextLf;
    if lo == hi {
      LinesNone(b, lo, base);
      assert false;
    }
    LinesStep(b, lo, hi, base);
    p, e := lo, NextLf(b, lo, hi);
    if l != Line(b[p..e], base + p) {
      assert l in LinesIn(b, e + 1, hi, base);
      p, e := LineIn(b, e + 1, hi, base, l);
    }
  }

  lemma {:induction false} TrimIs(b: Bytes)
    ensures Trims(b, TrimCr(b))
  {
    if b != [] && b[|b| - 1] == CR {
      TrimIs(b[..|b| - 1]);
    }
  }

  lemma {:induction false} TrimNoShorter(b: Bytes, t: Bytes, u: Bytes)
    requires Trims(b, t) && Trims(b, u)
    ensures |u| <= |t|
  {
    assert u == [] || b[|u| - 1] == u[|u| - 1];
  }

  lemma {:induction false} TrimUnique(b: Bytes, t: Bytes, u: Bytes)
    requires Trims(b, t) && Trims(b, u)
    ensures t == u
  {
    TrimNoShorter(b, t, u);
    TrimNoShorter(b, u, t);
    assert t == b[..|t|] && u == b[..|u|];
  }

  // ---- Backward ------------------------------------------------------------------------

  /** The bytes of file i from p to e are a line that starts before o, cut off at o when it goes on. */
  predicate LineBefore(fc: FileChain, o: nat, i: nat, p: nat, e: nat) {
    && i < |fc.files| && fc.files[i].start < o
    && var cf := fc.files[i];
       IsLine(cf.data, 0, p, e, if o - cf.start < |cf.data| then o - cf.start else |cf.data|)
  }

  /** What a backward read may return of it: not over-long, trimmed, not empty, accepted, not before since. */
  ghost predicate Returnable(fc: FileChain, o: nat, q: Query, since: int, i: nat, p: nat, e: nat, l: Line) {
    && LineBefore(fc, o, i, p, e)
    && l.offset == fc.files[i].start + p && e - p <= q.maxLine
    && Trims(fc.files[i].data[p..e], l.text) && l.text != [] && q.accepts(l.text)
    && (since < 0 || l.offset >= since)
  }

  ghost predicate CanReturn(fc: FileChain, o: nat, q: Query, since: int, l: Line) {
    exists i: nat, p: nat, e: nat :: Returnable(fc, o, q, since, i, p, e, l)
  }

  lemma {:induction false} TidyHas(ls: seq<Line>, maxLine: nat, since: int, l: Line)
    ensures l in Tidy(ls, maxLine, since) <==>
              exists x <- ls :: |x.text| <= maxLine && Trims(x.text, l.text) && l.offset == x.offset
                                && (since < 0 || l.offset >= since)
  {
    if ls != [] {
      TidyHas(ls[1..], maxLine, since, l);
      TrimIs(ls[0].text);
      if Trims(ls[0].text, l.text) {
        TrimUnique(ls[0].text, l.text, TrimCr(ls[0].text));
      }
      hide TrimCr, Trims;
      assert forall x <- ls :: x == ls[0] || x in ls[1..];
    }
  }

  function PlaceBefore(cf: ChainFile, o: nat): nat {
    if o <= cf.start then 0 else if o - cf.start < |cf.data| then o - cf.start else |cf.data|
  }

  lemma {:induction false} FileBeforeIs(cf: ChainFile, o: nat)
    ensures FileBefore(cf, o) == LinesIn(cf.data, 0, PlaceBefore(cf, o), cf.start)
  {
    hide LinesIn;
    LinesNone(cf.data, 0, cf.start);
  }

  lemma {:induction false} BeforeFound(fc: FileChain, n: nat, o: nat, i: nat, p: nat, e: nat)
    requires i < n <= |fc.files| && LineBefore(fc, o, i, p, e)
    ensures Line(fc.files[i].data[p..e], fc.files[i].start + p) in Before(fc.files, n, o)
  {
    hide Before, IsLine, FileBefore, LinesIn;
    var cf := fc.files[i];
    BeforeStep(fc.files, n, o);
    if i == n - 1 {
      FileBeforeIs(cf, o);
      LineFound(cf.data, 0, p, e, PlaceBefore(cf, o), cf.start);
    } else {
      BeforeFound(fc, n - 1, o, i, p, e);
    }
  }

  lemma {:induction false} FileBeforeIn(cf: ChainFile, o: nat, l: Line) returns (p: nat, e: nat)
    requires l in FileBefore(cf, o)
    ensures cf.start < o && IsLine(cf.data, 0, p, e, PlaceBefore(cf, o)) && l == Line(cf.data[p..e], cf.start + p)
  {
    FileBeforeIs(cf, o);
    hide LinesIn, FileBefore;
    p, e := LineIn(cf.data, 0, PlaceBefore(cf, o), cf.start, l);
  }

  lemma {:induction false} NoneBefore(files: seq<ChainFile>, o: nat)
    ensures Before(files, 0, o) == []
  {}

  lemma {:induction false} BeforeIn(fc: FileChain, n: nat, o: nat, l: Line) returns (i: nat, p: nat, e: nat)
    requires n <= |fc.files| && l in Before(fc.files, n, o)
    ensures i < n && LineBefore(fc, o, i, p, e) && l == Line(fc.files[i].data[p..e], fc.files[i].start + p)
  {
    hide *;
    NoneBefore(fc.files, o);
    BeforeStep(fc.files, n, o);
    InConcat(Before(fc.files, n - 1, o), FileBefore(fc.files[n - 1], o));
    if l in Before(fc.files, n - 1, o) {
      i, p, e := BeforeIn(fc, n - 1, o, l);
    } else {
      i := n - 1;
      p, e := FileBeforeIn(fc.files[n - 1], o, l);
      LineBeforeIs(fc, o, i, p, e);
    }
  }

  lemma {:induction false} LineBeforeIs(fc: FileChain, o: nat, i: nat, p: nat, e: nat)
    requires i < |fc.files| && fc.files[i].start < o
    requires IsLine(fc.files[i].data, 0, p, e, PlaceBefore(fc.files[i], o))
    ensures LineBefore(fc, o, i, p, e)
  {
    hide IsLine;
  }

  lemma {:induction false} WantedHas(fc: FileChain, o: nat, q: Query, since: int, l: Line)
    ensures l in Wanted(Before(fc.files, |fc.files|, o), q, since) <==> CanReturn(fc, o, q, since, l)
  {
    hide Before, Tidy, Hits, LineBefore, Trims;
    var n := |fc.files|;
    var ls := Before(fc.files, n, o);
    var tidy := Tidy(ls, q.maxLine, since);
    HitsMembers(tidy, q.accepts);
    TidyHas(ls, q.maxLine, since, l);
    if CanReturn(fc, o, q, since, l) {
      var i: nat, p: nat, e: nat :| Returnable(fc, o, q, since, i, p, e, l);
      BeforeAt(fc, o, i, p, e);
      BeforeFound(fc, n, o, i, p, e);
      var cf := fc.files[i];
      var x := Line(cf.data[p..e], cf.start + p);
      assert x in ls && |x.text| <= q.maxLine;
      HitsHas(tidy, q.accepts, l);
    }
    if l in Hits(tidy, q.accepts) {
      var x :| x in ls && |x.text| <= q.maxLine && Trims(x.text, l.text) && l.offset == x.offset
               && (since < 0 || l.offset >= since);
      var i, p, e := BeforeIn(fc, n, o, x);
      BeforeAt(fc, o, i, p, e);
      assert Returnable(fc, o, q, since, i, p, e, l);
    }
  }

  lemma {:induction false} BeforeAt(fc: FileChain, o: nat, i: nat, p: nat, e: nat)
    requires LineBefore(fc, o, i, p, e)
    ensures i < |fc.files| && p <= e <= |fc.files[i].data|
  {}

  lemma {:induction false} FileBeforeIncreasing(cf: ChainFile, o: nat)
    ensures var ls := FileBefore(cf, o);
            ChainSearch.Increasing(ls) && AllFrom(ls, cf.start) && AllBelow(ls, cf.start + |cf.data|)
  {
    FileBeforeIs(cf, o);
    hide FileBefore, LinesIn;
    LinesOffsets(cf.data, 0, PlaceBefore(cf, o), cf.start);
    var ls := FileBefore(cf, o);
    assert forall j | 0 <= j < |ls| :: ls[j] in ls;
  }

  lemma {:induction false} IncreasingJoin(a: seq<Line>, b: seq<Line>, at: nat, end: nat)
    requires ChainSearch.Increasing(a) && ChainSearch.Increasing(b)
    requires AllBelow(a, at) && AllFrom(b, at) && AllBelow(b, end) && at <= end
    ensures ChainSearch.Increasing(a + b) && AllBelow(a + b, end)
  {}

  lemma {:induction false} NextStart(fc: FileChain, k: nat)
    requires fc.Valid() && k < |fc.files|
    ensures var end := fc.files[k].start + |fc.files[k].data|;
            end == if k + 1 < |fc.files| then fc.files[k + 1].start else fc.total
  {}

  lemma {:induction false} BeforeIncreasing(fc: FileChain, n: nat, o: nat)
    requires fc.Valid() && n <= |fc.files|
    ensures ChainSearch.Increasing(Before(fc.files, n, o))
    ensures AllBelow(Before(fc.files, n, o), if n < |fc.files| then fc.files[n].start else fc.total)
  {
    if n == 0 {
      ChainSearch.IncreasingNone();
    } else {
      var cf := fc.files[n - 1];
      NextStart(fc, n - 1);
      hide *;
      BeforeIncreasing(fc, n - 1, o);
      BeforeStep(fc.files, n, o);
      FileBeforeIncreasing(cf, o);
      IncreasingJoin(Before(fc.files, n - 1, o), FileBefore(cf, o), cf.start, cf.start + |cf.data|);
    }
  }

  lemma {:induction false} WantedIncreasing(fc: FileChain, o: nat, q: Query, since: int)
    requires fc.Valid()
    ensures ChainSearch.Increasing(Wanted(Before(fc.files, |fc.files|, o), q, since))
  {
    var ls := Before(fc.files, |fc.files|, o);
    BeforeIncreasing(fc, |fc.files|, o);
    NothingLower(ls);
    hide Before, Tidy, Hits, ChainSearch.Increasing, AllFrom, AllBelow;
    TidyWithin(ls, q.maxLine, since, 0, fc.total);
    ChainSearch.HitsIncreasing(Tidy(ls, q.maxLine, since), q.accepts);
  }

  lemma {:induction false} NothingLower(ls: seq<Line>)
    ensures AllFrom(ls, 0)
  {}

  lemma {:induction false} TidyWithin(ls: seq<Line>, maxLine: nat, since: int, lo: nat, hi: nat)
    requires ChainSearch.Increasing(ls) && AllFrom(ls, lo) && AllBelow(ls, hi)
    ensures var r := Tidy(ls, maxLine, since); ChainSearch.Increasing(r) && AllFrom(r, lo) && AllBelow(r, hi)
  {
    if ls != [] {
      TidyWithin(ls[1..], maxLine, since, ls[0].offset + 1, hi);
    }
  }

  /** Whether the limits of a read can have kept anything from its page. */
  predicate Full(q: Query, lines: seq<Line>) {
    q.count == 0 || (lines != [] && (|lines| == q.count || Size(lines) + q.maxLine > q.budget))
  }

  lemma {:induction false} SuffixByOffset(r: seq<Line>, ms: seq<Line>, l: Line)
    requires ChainSearch.Increasing(ms) && r != [] && |r| <= |ms| && r == ms[|ms| - |r|..]
    ensures l in r <==> l in ms && l.offset >= r[0].offset
  {
    var k := |ms| - |r|;
    assert forall i | 0 <= i < |r| :: r[i] == ms[k + i];
    if l in ms && l.offset >= r[0].offset {
      var i :| 0 <= i < |ms| && ms[i] == l;
      assert r[0] == ms[k];
      assert l == r[i - k];
    }
  }

  lemma {:induction false} NotFullIsAll(r: seq<Line>, ms: seq<Line>, q: Query)
    requires IsNewestRun(r, ms, q.count, q.budget) || IsOldestRun(r, ms, q.count, q.budget)
    requires forall l <- ms :: |l.text| <= q.maxLine
    ensures !Full(q, r) ==> r == ms
  {
    hide Size;
    if |r| < |ms| {
      assert ms[|r|] in ms && ms[|ms| - |r| - 1] in ms;
    }
  }

  lemma {:induction false} ReturnedFits(fc: FileChain, o: nat, q: Query, since: int, l: Line)
    requires CanReturn(fc, o, q, since, l)
    ensures |l.text| <= q.maxLine
  {
    hide LineBefore;
    var i: nat, p: nat, e: nat :| Returnable(fc, o, q, since, i, p, e, l);
    BeforeAt(fc, o, i, p, e);
  }

  /**
   Line by line: a backward page holds, in order, every line that starts before o, is at most maxLine
   bytes long, matches when trimmed and starts at since or later, from its first offset on; those before
   its first offset are missing only from a page that is full.
   */
  lemma {:induction false} BackwardExactly(fc: FileChain, o: nat, q: Query, since: int, page: Page, l: Line)
    requires fc.Valid() && IsBackwardPage(fc, o, q, since, page)
    ensures l in page.lines <==> CanReturn(fc, o, q, since, l) && page.lines != [] && l.offset >= page.firstOffset
    ensures !Full(q, page.lines) && CanReturn(fc, o, q, since, l) ==> l in page.lines
    ensures page.firstOffset == (if page.lines == [] then o else page.lines[0].offset) && page.nextOffset == o
    ensures forall i, j | 0 <= i < j < |page.lines| :: page.lines[i].offset < page.lines[j].offset
  {
    var ms := Wanted(Before(fc.files, |fc.files|, o), q, since);
    WantedIncreasing(fc, o, q, since);
    WantedHas(fc, o, q, since, l);
    forall x <- ms ensures |x.text| <= q.maxLine {
      WantedHas(fc, o, q, since, x);
      ReturnedFits(fc, o, q, since, x);
    }
    hide Wanted, CanReturn, Full, Size, FileChain.Valid;
    NotFullIsAll(page.lines, ms, q);
    if page.lines != [] {
      SuffixByOffset(page.lines, ms, l);
    }
  }

  // ---- Forward -------------------------------------------------------------------------

  /** The bytes of file i from p to e are a line that starts at o or later, or the rest of the one o is in. */
  predicate LineAfter(fc: FileChain, o: nat, i: nat, p: nat, e: nat) {
    && i < |fc.files|
    && var cf := fc.files[i];
       IsLine(cf.data, if o <= cf.start then 0 else o - cf.start, p, e, |cf.data|)
  }

  /** A scan from o comes to it: no line of its file, from where the scan starts to it, reaches the limit. */
  ghost predicate Reached(fc: FileChain, o: nat, maxLine: nat, i: nat, p: nat, e: nat) {
    && LineAfter(fc, o, i, p, e)
    && forall p': nat, e': nat | LineAfter(fc, o, i, p', e') && p' <= p :: e' - p' < maxLine
  }

  ghost predicate CanScan(fc: FileChain, o: nat, maxLine: nat, l: Line) {
    exists i: nat, p: nat, e: nat ::
      Reached(fc, o, maxLine, i, p, e) && l == Line(fc.files[i].data[p..e], fc.files[i].start + p)
  }

  lemma {:induction false} IncreasingHead(ls: seq<Line>)
    requires ChainSearch.Increasing(ls) && ls != []
    ensures ChainSearch.Increasing(ls[1..]) && forall x <- ls[1..] :: x.offset > ls[0].offset
    ensures forall x <- ls :: x == ls[0] || x in ls[1..]
  {}

  lemma {:induction false} ShortPrefixHas(ls: seq<Line>, maxLine: nat, l: Line)
    requires ChainSearch.Increasing(ls)
    ensures l in ShortPrefix(ls, maxLine) <==>
              l in ls && forall x <- ls | x.offset <= l.offset :: |x.text| < maxLine
  {
    if ls != [] {
      IncreasingHead(ls);
      hide ChainSearch.Increasing;
      ShortPrefixHas(ls[1..], maxLine, l);
      assert ls[0] in ls;
    }
  }

  function PlaceAfter(cf: ChainFile, o: nat): nat {
    if o <= cf.start then 0 else o - cf.start
  }

  lemma {:induction false} FileAfterIs(cf: ChainFile, o: nat, maxLine: nat)
    ensures FileAfter(cf, o, maxLine) ==
              if PlaceAfter(cf, o) > |cf.data| then []
              else ShortPrefix(LinesIn(cf.data, PlaceAfter(cf, o), |cf.data|, cf.start), maxLine)
  {
    hide LinesIn;
    LinesNone(cf.data, |cf.data|, cf.start);
  }

  /** The same within one file. */
  ghost predicate ReachedIn(cf: ChainFile, o: nat, maxLine: nat, p: nat, e: nat) {
    var lo := PlaceAfter(cf, o);
    && IsLine(cf.data, lo, p, e, |cf.data|)
    && forall p': nat, e': nat | IsLine(cf.data, lo, p', e', |cf.data|) && p' <= p :: e' - p' < maxLine
  }

  lemma {:induction false} ReachedIs(fc: FileChain, o: nat, maxLine: nat, i: nat, p: nat, e: nat)
    requires i < |fc.files|
    ensures Reached(fc, o, maxLine, i, p, e) <==> ReachedIn(fc.files[i], o, maxLine, p, e)
  {
    hide IsLine;
    assert forall p': nat, e': nat ::
      LineAfter(fc, o, i, p', e') <==> IsLine(fc.files[i].data, PlaceAfter(fc.files[i], o), p', e', |fc.files[i].data|);
  }

  lemma {:induction false} ShortSoFar(cf: ChainFile, o: nat, maxLine: nat, p: nat, e: nat)
    requires ReachedIn(cf, o, maxLine, p, e)
    ensures PlaceAfter(cf, o) <= |cf.data|
    ensures forall x <- LinesIn(cf.data, PlaceAfter(cf, o), |cf.data|, cf.start) | x.offset <= cf.start + p ::
              |x.text| < maxLine
  {
    var lo, hi := PlaceAfter(cf, o), |cf.data|;
    assert lo <= hi;
    hide LinesIn, IsLine, PlaceAfter;
    forall x <- LinesIn(cf.data, lo, hi, cf.start) | x.offset <= cf.start + p ensures |x.text| < maxLine {
      var p', e' := LineIn(cf.data, lo, hi, cf.start, x);
      LineLength(cf.data, lo, p', e', hi);
    }
  }

  lemma {:induction false} LineLength(b: Bytes, lo: nat, p: nat, e: nat, hi: nat)
    requires IsLine(b, lo, p, e, hi)
    ensures p <= e <= |b| && |b[p..e]| == e - p
  {}

  lemma {:induction false} InShortPrefix(ls: seq<Line>, maxLine: nat, l: Line)
    requires ChainSearch.Increasing(ls) && l in ls && forall x <- ls | x.offset <= l.offset :: |x.text| < maxLine
    ensures l in ShortPrefix(ls, maxLine)
  {
    hide *;
    ShortPrefixHas(ls, maxLine, l);
  }

  lemma {:induction false} ReachedBounds(cf: ChainFile, o: nat, maxLine: nat, p: nat, e: nat)
    requires ReachedIn(cf, o, maxLine, p, e)
    ensures IsLine(cf.data, PlaceAfter(cf, o), p, e, |cf.data|) && PlaceAfter(cf, o) <= p <= e <= |cf.data|
  {
    hide PlaceAfter;
  }

  lemma {:induction false} FileFound(cf: ChainFile, o: nat, maxLine: nat, p: nat, e: nat)
    requires ReachedIn(cf, o, maxLine, p, e)
    ensures e <= |cf.data| && Line(cf.data[p..e], cf.start + p) in FileAfter(cf, o, maxLine)
  {
    hide *;
    ReachedBounds(cf, o, maxLine, p, e);
    ShortSoFar(cf, o, maxLine, p, e);
    FileAfterIs(cf, o, maxLine);
    var lo, hi := PlaceAfter(cf, o), |cf.data|;
    LineFound(cf.data, lo, p, e, hi, cf.start);
    ChainSearch.LinesIncreasing(cf.data, lo, hi, cf.start);
    var l := Line(cf.data[p..e], cf.start + p);
    assert l.offset == cf.start + p;
    InShortPrefix(LinesIn(cf.data, lo, hi, cf.start), maxLine, l);
  }

  lemma {:induction false} FileIn(cf: ChainFile, o: nat, maxLine: nat, l: Line) returns (p: nat, e: nat)
    requires l in FileAfter(cf, o, maxLine)
    ensures ReachedIn(cf, o, maxLine, p, e) && e <= |cf.data| && l == Line(cf.data[p..e], cf.start + p)
  {
    FileAfterIs(cf, o, maxLine);
    hide LinesIn, FileAfter, PlaceAfter;
    var lo, hi := PlaceAfter(cf, o), |cf.data|;
    var ls := LinesIn(cf.data, lo, hi, cf.start);
    ChainSearch.LinesIncreasing(cf.data, lo, hi, cf.start);
    ShortPrefixHas(ls, maxLine, l);
    p, e := LineIn(cf.data, lo, hi, cf.start, l);
    forall p': nat, e': nat | IsLine(cf.data, lo, p', e', hi) && p' <= p ensures e' - p' < maxLine {
      LineFound(cf.data, lo, p', e', hi, cf.start);
    }
  }

  lemma {:induction false} AfterFound(fc: FileChain, k: nat, o: nat, maxLine: nat, i: nat, p: nat, e: nat)
    requires k <= i < |fc.files| && ReachedIn(fc.files[i], o, maxLine, p, e)
    ensures e <= |fc.files[i].data|
    ensures Line(fc.files[i].data[p..e], fc.files[i].start + p) in After(fc.files, k, o, maxLine)
    decreases i - k
  {
    hide After, ReachedIn, FileAfter;
    AfterStep(fc.files, k, o, maxLine);
    FileFound(fc.files[i], o, maxLine, p, e);
    if k < i {
      AfterFound(fc, k + 1, o, maxLine, i, p, e);
    }
  }

  lemma {:induction false} AfterIn(fc: FileChain, k: nat, o: nat, maxLine: nat, l: Line) returns (i: nat, p: nat, e: nat)
    requires k <= |fc.files| && l in After(fc.files, k, o, maxLine)
    ensures k <= i < |fc.files| && ReachedIn(fc.files[i], o, maxLine, p, e) && e <= |fc.files[i].data|
    ensures l == Line(fc.files[i].data[p..e], fc.files[i].start + p)
    decreases |fc.files| - k
  {
    hide *;
    AfterNone(fc.files, o, maxLine);
    AfterStep(fc.files, k, o, maxLine);
    InConcat(FileAfter(fc.files[k], o, maxLine), After(fc.files, k + 1, o, maxLine));
    if l in FileAfter(fc.files[k], o, maxLine) {
      i := k;
      p, e := FileIn(fc.files[k], o, maxLine, l);
    } else {
      i, p, e := AfterIn(fc, k + 1, o, maxLine, l);
    }
  }

  /** What a scan from o delivers. */
  lemma {:induction false} ScanHas(fc: FileChain, o: nat, maxLine: nat, l: Line)
    ensures l in After(fc.files, 0, o, maxLine) <==> CanScan(fc, o, maxLine, l)
  {
    hide After, ReachedIn, Reached;
    if l in After(fc.files, 0, o, maxLine) {
      var i, p, e := AfterIn(fc, 0, o, maxLine, l);
      ReachedIs(fc, o, maxLine, i, p, e);
      assert Reached(fc, o, maxLine, i, p, e);
    }
    if CanScan(fc, o, maxLine, l) {
      var i, p, e := ScanPlace(fc, o, maxLine, l);
      AfterFound(fc, 0, o, maxLine, i, p, e);
    }
  }

  lemma {:induction false} ScanPlace(fc: FileChain, o: nat, maxLine: nat, l: Line) returns (i: nat, p: nat, e: nat)
    requires CanScan(fc, o, maxLine, l)
    ensures i < |fc.files| && ReachedIn(fc.files[i], o, maxLine, p, e) && p <= e <= |fc.files[i].data|
    ensures l == Line(fc.files[i].data[p..e], fc.files[i].start + p)
  {
    i, p, e :| Reached(fc, o, maxLine, i, p, e) && l == Line(fc.files[i].data[p..e], fc.files[i].start + p);
    ReachedIs(fc, o, maxLine, i, p, e);
  }

  lemma {:induction false} PrefixByOffset(r: seq<Line>, ms: seq<Line>, next: nat, l: Line)
    requires ChainSearch.Increasing(ms) && r <= ms && AllFrom(ms[|r|..], next)
    requires r != [] ==> r[|r| - 1].offset < next
    ensures l in r <==> l in ms && r != [] && l.offset < next
  {
    assert ms == r + ms[|r|..];
    if l in r {
      var i :| 0 <= i < |r| && r[i] == l;
      assert ms[i] == r[i] && ms[|r| - 1] == r[|r| - 1];
    } else if l in ms && r != [] {
      var i :| 0 <= i < |ms| && ms[i] == l;
      if i >= |r| {
        assert ms[|r|..][i - |r|] == l;
      }
    }
  }

  /**
   Line by line: a forward page holds, in order, every matching line a scan from o comes to, up to its
   cursor; those from the cursor on are missing only from a page that is full.
   */
  lemma {:induction false} ForwardExactly(fc: FileChain, o: nat, q: Query, page: Page, l: Line)
    requires fc.Valid() && IsForwardPage(fc, o, q, page)
    ensures var matching := l.text != [] && q.accepts(l.text) && CanScan(fc, o, q.maxLine, l);
            && (l in page.lines <==> matching && page.lines != [] && l.offset < page.nextOffset)
            && (!Full(q, page.lines) && matching ==> l in page.lines)
    ensures forall i, j | 0 <= i < j < |page.lines| :: page.lines[i].offset < page.lines[j].offset
    ensures page.firstOffset == (if page.lines == [] then o else page.lines[0].offset)
    ensures page.lines == [] ==> page.nextOffset == o
  {
    var scan := After(fc.files, 0, o, q.maxLine);
    var ms := Hits(scan, q.accepts);
    ChainSearch.AfterIncreasing(fc, 0, o, q.maxLine);
    ChainSearch.HitsIncreasing(scan, q.accepts);
    AheadOffsets(fc, page.nextOffset, q);
    AheadHas(fc, o, q, l);
    AheadFits(fc, o, q);
    hide After, Hits, CanScan, Full, Size, FileChain.Valid, Boundary, AllFrom;
    NotFullIsAll(page.lines, ms, q);
    if page.lines != [] {
      PrefixByOffset(page.lines, ms, page.nextOffset, l);
    }
  }

  lemma {:induction false} AheadFits(fc: FileChain, o: nat, q: Query)
    ensures forall x <- Ahead(fc, o, q) :: |x.text| <= q.maxLine
  {
    hide Ahead, CanScan;
    forall x <- Ahead(fc, o, q) ensures |x.text| <= q.maxLine {
      AheadHas(fc, o, q, x);
    }
  }

  lemma {:induction false} AheadHas(fc: FileChain, o: nat, q: Query, l: Line)
    ensures l in Ahead(fc, o, q) <==> l.text != [] && q.accepts(l.text) && CanScan(fc, o, q.maxLine, l)
    ensures l in Ahead(fc, o, q) ==> |l.text| <= q.maxLine
  {
    var scan := After(fc.files, 0, o, q.maxLine);
    HitsMembers(scan, q.accepts);
    ScanHas(fc, o, q.maxLine, l);
    hide After, Hits, CanScan;
    if l in scan {
      ScanFits(fc, o, q.maxLine, l);
      if l.text != [] && q.accepts(l.text) {
        HitsHas(scan, q.accepts, l);
      }
    }
  }

  lemma {:induction false} ScanFits(fc: FileChain, o: nat, maxLine: nat, l: Line)
    requires CanScan(fc, o, maxLine, l)
    ensures |l.text| < maxLine
  {
    var i, p, e := ScanPlace(fc, o, maxLine, l);
    hide IsLine;
    assert IsLine(fc.files[i].data, PlaceAfter(fc.files[i], o), p, e, |fc.files[i].data|);
  }

  /**
   The cursor of a page that holds something: right behind the last line when the page has as many as
   were asked for, and otherwise at the next match, past every other line on the way, or behind the last
   line a scan comes to.
   */
  lemma {:induction false} CursorExactly(fc: FileChain, o: nat, q: Query, page: Page, l: Line)
    requires fc.Valid() && IsForwardPage(fc, o, q, page) && page.lines != []
    ensures var last := page.lines[|page.lines| - 1];
            |page.lines| == q.count ==> last.offset < page.nextOffset <= last.offset + |last.text| + 1
    ensures |page.lines| < q.count && CanScan(fc, page.nextOffset, q.maxLine, l) ==>
              exists x :: CanScan(fc, page.nextOffset, q.maxLine, x) && x.offset <= l.offset && x.text != [] && q.accepts(x.text)
  {
    var ahead := After(fc.files, 0, page.nextOffset, q.maxLine);
    ChainSearch.AfterIncreasing(fc, 0, page.nextOffset, q.maxLine);
    ScanHas(fc, page.nextOffset, q.maxLine, l);
    hide After, Hits, CanScan, FileChain.Valid, Boundary;
    if |page.lines| < q.count && CanScan(fc, page.nextOffset, q.maxLine, l) {
      ScanHas(fc, page.nextOffset, q.maxLine, ahead[0]);
      assert ahead[0] in ahead;
    }
  }

  // ---- Limits --------------------------------------------------------------------------

  /** The bytes of the texts of some lines. */
  function BytesOf(ls: seq<Line>): Bytes {
    Flatten(seq(|ls|, i requires 0 <= i < |ls| => ls[i].text))
  }

  lemma {:induction false} SizeIsBytes(ls: seq<Line>)
    ensures Size(ls) == |BytesOf(ls)|
  {
    var texts := seq(|ls|, i requires 0 <= i < |ls| => ls[i].text);
    if ls != [] {
      SizeIsBytes(ls[1..]);
      assert texts[1..] == seq(|ls[1..]|, i requires 0 <= i < |ls[1..]| => ls[1..][i].text);
    }
  }

  /** Within a read's limits: at most count lines, and at most budget bytes unless it is one line. */
  predicate Fits(ls: seq<Line>, count: nat, budget: nat) {
    |ls| <= count && (|ls| <= 1 || |BytesOf(ls)| <= budget)
  }

  /** Of all runs of the newest matches within the limits, the page is the longest. */
  lemma {:induction false} NewestIsLongest(r: seq<Line>, ms: seq<Line>, count: nat, budget: nat, k: nat)
    requires IsNewestRun(r, ms, count, budget) && k <= |ms|
    ensures Fits(r, count, budget)
    ensures Fits(ms[|ms| - k..], count, budget) ==> k <= |r|
  {
    SizeIsBytes(r);
    SizeIsBytes(ms[|ms| - k..]);
    if k > |r| {
      var n := |ms| - |r|;
      assert ms[|ms| - k..] == ms[|ms| - k..n - 1] + ([ms[n - 1]] + r);
      SizeConcat(ms[|ms| - k..n - 1], [ms[n - 1]] + r);
      SizeConcat([ms[n - 1]], r);
      assert Size([ms[n - 1]]) == |ms[n - 1].text|;
    }
    hide BytesOf, Size;
  }

  /** The same from the oldest end. */
  lemma {:induction false} OldestIsLongest(r: seq<Line>, ms: seq<Line>, count: nat, budget: nat, k: nat)
    requires IsOldestRun(r, ms, count, budget) && k <= |ms|
    ensures Fits(r, count, budget)
    ensures Fits(ms[..k], count, budget) ==> k <= |r|
  {
    SizeIsBytes(r);
    SizeIsBytes(ms[..k]);
    if k > |r| {
      var n := |r|;
      assert ms[..k] == (r + [ms[n]]) + ms[n + 1..k];
      SizeConcat(r + [ms[n]], ms[n + 1..k]);
      SizeConcat(r, [ms[n]]);
      assert Size([ms[n]]) == |ms[n].text|;
    }
    hide BytesOf, Size;
  }

  // ---- Searching -----------------------------------------------------------------------

  /** A scan from the start comes to it, it contains the text, the filter takes it, and it starts at since or later. */
  ghost predicate Sought(fc: FileChain, contains: Bytes -> bool, q: Query, since: int, l: Line) {
    && CanScan(fc, 0, q.maxLine, l) && l.text != [] && contains(l.text) && q.accepts(l.text)
    && (since < 0 || l.offset >= since)
  }

  lemma {:induction false} FromHas(ls: seq<Line>, since: int, l: Line)
    ensures l in ChainSearch.From(ls, since) <==> l in ls && (since < 0 || l.offset >= since)
  {
    if ls != [] {
      FromHas(ls[1..], since, l);
      assert forall x <- ls :: x == ls[0] || x in ls[1..];
    }
  }

  lemma {:induction false} MatchesHas(fc: FileChain, contains: Bytes -> bool, q: Query, since: int, l: Line)
    ensures l in ChainSearch.Matches(After(fc.files, 0, 0, q.maxLine), contains, q, since)
            <==> Sought(fc, contains, q, since, l)
  {
    var scan := After(fc.files, 0, 0, q.maxLine);
    var from := ChainSearch.From(scan, since);
    FromHas(scan, since, l);
    ScanHas(fc, 0, q.maxLine, l);
    HitsMembers(from, contains);
    HitsMembers(Hits(from, contains), q.accepts);
    hide After, Hits, CanScan, ChainSearch.From;
    if Sought(fc, contains, q, since, l) {
      HitsHas(from, contains, l);
      HitsHas(Hits(from, contains), q.accepts, l);
    }
  }

  /**
   A search counts the lines sought, each once, and returns the offsets of the first of them, in order,
   up to the limit.
   */
  lemma {:induction false} SearchExactly(
    fc: FileChain, contains: Bytes -> bool, limit: nat, q: Query, since: int, offsets: seq<nat>, total: nat)
    returns (ms: seq<Line>)
    requires fc.Valid()
    requires ChainSearch.Found(ChainSearch.Matches(After(fc.files, 0, 0, q.maxLine), contains, q, since), limit, offsets, total)
    ensures forall l :: l in ms <==> Sought(fc, contains, q, since, l)
    ensures forall i, j | 0 <= i < j < |ms| :: ms[i].offset < ms[j].offset
    ensures total == |ms| && |offsets| == if total <= limit then total else limit
    ensures forall i | 0 <= i < |offsets| :: offsets[i] == ms[i].offset
  {
    ms := ChainSearch.Matches(After(fc.files, 0, 0, q.maxLine), contains, q, since);
    forall l ensures l in ms <==> Sought(fc, contains, q, since, l) {
      MatchesHas(fc, contains, q, since, l);
    }
    ChainSearch.MatchesIncreasing(fc, contains, q, since);
    hide ChainSearch.Matches, Sought, FileChain.Valid, ChainSearch.Offsets;
    ChainSearch.OffsetsOf(ms, if |ms| <= limit then |ms| else limit);
  }
}
