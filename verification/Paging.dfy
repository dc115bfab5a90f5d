/**
 Paging: what a client that feeds the returned cursor back into the next request gets, page after
 page, whatever count and byte budget each request has.
 */
module Paging {
  import opened Bytes
  import opened Lines
  import opened Chain
  import opened ForwardRead
  import opened BackwardRead

  /** One request, with a count and a byte budget of its own, and the page it was answered with. */
  datatype Exchange = Exchange(count: nat, budget: nat, page: Page) {
    function Query(q: Query): Query {
      q.(count := count, budget := budget)
    }
  }

  // ---- Forward ----------------------------------------------------------------

  /** xs is a run of forward requests, each made at the cursor the one before it returned. */
  ghost predicate ForwardRun(fc: FileChain, o: nat, q: Query, xs: seq<Exchange>)
    decreases |xs|
  {
    xs != [] ==>
      && IsForwardPage(fc, o, xs[0].Query(q), xs[0].page)
      && ForwardRun(fc, xs[0].page.nextOffset, q, xs[1..])
  }

  function Delivered(xs: seq<Exchange>): seq<Line> {
    if xs == [] then [] else xs[0].page.lines + Delivered(xs[1..])
  }

  function ForwardCursor(o: nat, xs: seq<Exchange>): nat {
    if xs == [] then o else xs[|xs| - 1].page.nextOffset
  }

  /** Matching lines from o on, as a scan delivers them. */
  function Ahead(fc: FileChain, o: nat, q: Query): seq<Line> {
    Hits(After(fc.files, 0, o, q.maxLine), q.accepts)
  }

  lemma {:induction false} ForwardStep(fc: FileChain, o: nat, q: Query, x: Exchange)
    requires IsForwardPage(fc, o, x.Query(q), x.page)
    ensures Ahead(fc, o, q) == x.page.lines + Ahead(fc, x.page.nextOffset, q)
  {
    hide Hits, After, Boundary;
  }

  /** Every match ahead is either delivered, once and in order, or still ahead of the cursor. */
  lemma {:induction false} ForwardPaging(fc: FileChain, o: nat, q: Query, xs: seq<Exchange>)
    requires ForwardRun(fc, o, q, xs)
    ensures Ahead(fc, o, q) == Delivered(xs) + Ahead(fc, ForwardCursor(o, xs), q)
    decreases |xs|
  {
    hide Ahead, IsForwardPage;
    if xs != [] {
      var p := xs[0].page;
      ForwardStep(fc, o, q, xs[0]);
      ForwardPaging(fc, p.nextOffset, q, xs[1..]);
      Assoc(p.lines, Delivered(xs[1..]), Ahead(fc, ForwardCursor(o, xs), q));
    }
  }

  /** A run that reached an empty page, asking for at least one line there, has delivered everything. */
  lemma {:induction false} ForwardComplete(fc: FileChain, o: nat, q: Query, xs: seq<Exchange>)
    requires ForwardRun(fc, o, q, xs)
    requires xs != [] && xs[|xs| - 1].page.lines == [] && xs[|xs| - 1].count >= 1
    ensures Delivered(xs) == Ahead(fc, o, q)
  {
    ForwardPaging(fc, o, q, xs);
    ForwardLast(fc, o, q, xs);
    hide Hits, After;
  }

  lemma {:induction false} ForwardLast(fc: FileChain, o: nat, q: Query, xs: seq<Exchange>)
    requires ForwardRun(fc, o, q, xs) && xs != []
    ensures var n := |xs| - 1;
            IsForwardPage(fc, ForwardCursor(o, xs[..n]), xs[n].Query(q), xs[n].page)
    decreases |xs|
  {
    hide IsForwardPage;
    var n := |xs| - 1;
    if n > 0 {
      ForwardLast(fc, xs[0].page.nextOffset, q, xs[1..]);
      assert xs[1..][..n - 1] == xs[..n][1..];
    }
  }

  /** Paging ends: a run of non-empty pages has at most one page per match, and each moves the cursor on. */
  lemma {:induction false} ForwardProgress(fc: FileChain, o: nat, q: Query, xs: seq<Exchange>)
    requires fc.Valid() && ForwardRun(fc, o, q, xs)
    requires forall i | 0 <= i < |xs| :: xs[i].page.lines != []
    ensures |xs| <= |Ahead(fc, o, q)|
    ensures o + |xs| <= ForwardCursor(o, xs)
    decreases |xs|
  {
    hide Hits, After;
    if xs != [] {
      var p := xs[0].page;
      ForwardProgress(fc, p.nextOffset, q, xs[1..]);
      var ms := Ahead(fc, o, q);
      assert ms == p.lines + Ahead(fc, p.nextOffset, q);
      AheadOffsets(fc, o, q);
      hide Ahead;
      assert ms[|p.lines| - 1] == p.lines[|p.lines| - 1];
    }
  }

  lemma {:induction false} AfterOffsets(files: seq<ChainFile>, k: nat, o: nat, maxLine: nat)
    requires k <= |files|
    ensures AllFrom(After(files, k, o, maxLine), o)
    decreases |files| - k
  {
    hide *;
    if k < |files| {
      AfterOffsets(files, k + 1, o, maxLine);
      AfterStep(files, k, o, maxLine);
      FileAfterOffsets(files[k], o, maxLine);
      AllFromConcat(FileAfter(files[k], o, maxLine), After(files, k + 1, o, maxLine), o);
    } else {
      AfterNone(files, o, maxLine);
      NothingFrom(o);
    }
  }

  lemma {:induction false} NothingFrom(o: nat)
    ensures AllFrom([], o)
  {}

  lemma {:induction false} AfterNone(files: seq<ChainFile>, o: nat, maxLine: nat)
    ensures After(files, |files|, o, maxLine) == []
  {}

  lemma {:induction false} FileAfterOffsets(cf: ChainFile, o: nat, maxLine: nat)
    ensures AllFrom(FileAfter(cf, o, maxLine), o)
  {
    hide LinesIn, ShortPrefix;
    var lo := if o <= cf.start then 0 else o - cf.start;
    if lo <= |cf.data| {
      LinesOffsets(cf.data, lo, |cf.data|, cf.start);
      var ls := LinesIn(cf.data, lo, |cf.data|, cf.start);
      assert forall i | 0 <= i < |ls| :: ls[i] in ls;
    }
  }

  lemma {:induction false} AheadOffsets(fc: FileChain, o: nat, q: Query)
    ensures AllFrom(Ahead(fc, o, q), o)
  {
    AfterOffsets(fc.files, 0, o, q.maxLine);
    HitsFrom(After(fc.files, 0, o, q.maxLine), q.accepts, o);
  }

  // ---- Backward -----------------------------------------------------------------

  /** xs is a run of backward requests, each made at the first offset of the one before it. */
  ghost predicate BackwardRun(fc: FileChain, o: nat, q: Query, since: int, xs: seq<Exchange>)
    decreases |xs|
  {
    xs != [] ==>
      && IsBackwardPage(fc, o, xs[0].Query(q), since, xs[0].page)
      && BackwardRun(fc, xs[0].page.firstOffset, q, since, xs[1..])
  }

  /** The pages put in front of one another, as the client does. */
  function Prepended(xs: seq<Exchange>): seq<Line> {
    if xs == [] then [] else Prepended(xs[1..]) + xs[0].page.lines
  }

  function BackwardCursor(o: nat, xs: seq<Exchange>): nat {
    if xs == [] then o else xs[|xs| - 1].page.firstOffset
  }

  /** Wanted lines before o, as the simple reading has them. */
  function Behind(fc: FileChain, o: nat, q: Query, since: int): seq<Line> {
    Wanted(Before(fc.files, |fc.files|, o), q, since)
  }

  /** Within one file, what lies before a line is the lines before it. */
  lemma {:induction false} FileBeforeAt(cf: ChainFile, o: nat, j: nat)
    requires j < |FileBefore(cf, o)|
    ensures cf.start <= FileBefore(cf, o)[j].offset < o
    ensures FileBefore(cf, FileBefore(cf, o)[j].offset) == FileBefore(cf, o)[..j]
  {
    hide LinesIn;
    var hi := if o - cf.start >= |cf.data| then |cf.data| else o - cf.start;
    UpToLine(cf.data, hi, cf.start, j);
    LinesNone(cf.data, 0, cf.start);
  }

  /** What lies before the i-th line before o is the lines before it, and nothing of it. */
  lemma {:induction false} BeforeAt(fc: FileChain, n: nat, o: nat, i: nat)
    requires fc.Valid() && n <= |fc.files| && i < |Before(fc.files, n, o)|
    ensures Before(fc.files, n, Before(fc.files, n, o)[i].offset) == Before(fc.files, n, o)[..i]
  {
    var files := fc.files;
    var ls := Before(files, n, o);
    assert n > 0;
    hide Before, FileBefore, FileChain.Valid;
    var head, cf := Before(files, n - 1, o), files[n - 1];
    BeforeStep(files, n, o);
    TakeConcat(head, FileBefore(cf, o), i);
    var o' := ls[i].offset;
    BeforeStep(files, n, o');
    if i < |head| {
      BeforeAt(fc, n - 1, o, i);
      BeforeInside(fc, n - 1, o);
      assert head[i] in head;
      FileBeforeNone(cf, o');
      assert head[..i] + [] == head[..i];
    } else {
      FileBeforeAt(cf, o, i - |head|);
      EarlierWhole(fc, n - 1, o);
      EarlierWhole(fc, n - 1, o');
    }
  }

  lemma {:induction false} FileBeforeNone(cf: ChainFile, o: nat)
    requires o <= cf.start
    ensures FileBefore(cf, o) == []
  {}

  lemma {:induction false} EarlierWhole(fc: FileChain, k: nat, o: nat)
    requires fc.Valid() && k < |fc.files| && o >= fc.files[k].start
    ensures Before(fc.files, k, o) == Earlier(fc.files, k)
  {
    hide Before, Earlier;
    forall m | 0 <= m < k ensures fc.files[m].start + |fc.files[m].data| <= o {
      StartsOrdered(fc, m, k);
    }
    BeforeIsEarlier(fc.files, k, o);
  }

  /** Lines of the first n files start before the file after them. */
  lemma {:induction false} BeforeInside(fc: FileChain, n: nat, o: nat)
    requires fc.Valid() && n < |fc.files|
    ensures forall l <- Before(fc.files, n, o) :: l.offset < fc.files[n].start
  {
    if n > 0 {
      var cf := fc.files[n - 1];
      assert cf.start + |cf.data| == fc.files[n].start;
      hide LinesIn, FileBefore, FileChain.Valid;
      BeforeInside(fc, n - 1, o);
      BeforeStep(fc.files, n, o);
      InFile(cf, o);
      hide Before;
      InConcat(Before(fc.files, n - 1, o), FileBefore(cf, o));
    }
  }

  /** The line the j-th wanted line comes from; the lines before it give the wanted lines before it. */
  lemma {:induction false} WantedFrom(ls: seq<Line>, q: Query, since: int, j: nat) returns (i: nat)
    requires j < |Wanted(ls, q, since)|
    ensures i < |ls| && ls[i].offset == Wanted(ls, q, since)[j].offset
    ensures Wanted(ls[..i], q, since) == Wanted(ls, q, since)[..j]
  {
    var n := |ls| - 1;
    assert ls != [];
    assert ls == ls[..n] + [ls[n]];
    WantedLast(ls[..n], ls[n], q, since);
    hide Wanted, TrimCr;
    if j < |Wanted(ls[..n], q, since)| {
      i := WantedFrom(ls[..n], q, since, j);
      assert ls[..n][..i] == ls[..i];
    } else {
      i := n;
    }
  }

  /** Asking again at the first offset of a page gives what that page left out. */
  lemma {:induction false} BehindPage(fc: FileChain, o: nat, q: Query, since: int, page: Page)
    requires fc.Valid() && IsBackwardPage(fc, o, q, since, page)
    ensures Behind(fc, o, q, since) == Behind(fc, page.firstOffset, q, since) + page.lines
  {
    hide Wanted, Before;
    var ms := Behind(fc, o, q, since);
    if page.lines != [] {
      var j := |ms| - |page.lines|;
      assert ms[j] == page.lines[0];
      var i := WantedFrom(Before(fc.files, |fc.files|, o), q, since, j);
      BeforeAt(fc, |fc.files|, o, i);
    }
  }

  /** Every wanted line before o is either delivered, once and in order, or still before the cursor. */
  lemma {:induction false} BackwardPaging(fc: FileChain, o: nat, q: Query, since: int, xs: seq<Exchange>)
    requires fc.Valid() && BackwardRun(fc, o, q, since, xs)
    ensures Behind(fc, o, q, since) == Behind(fc, BackwardCursor(o, xs), q, since) + Prepended(xs)
    decreases |xs|
  {
    hide Behind, IsBackwardPage;
    if xs != [] {
      var p := xs[0].page;
      BehindPage(fc, o, xs[0].Query(q), since, p);
      SameBehind(fc, o, q, xs[0], since);
      SameBehind(fc, p.firstOffset, q, xs[0], since);
      BackwardPaging(fc, p.firstOffset, q, since, xs[1..]);
      Assoc(Behind(fc, BackwardCursor(o, xs), q, since), Prepended(xs[1..]), p.lines);
    }
  }

  lemma {:induction false} SameBehind(fc: FileChain, o: nat, q: Query, x: Exchange, since: int)
    ensures Behind(fc, o, x.Query(q), since) == Behind(fc, o, q, since)
  {
    hide Before, Hits, Tidy;
  }

  lemma {:induction false} BackwardLast(fc: FileChain, o: nat, q: Query, since: int, xs: seq<Exchange>)
    requires BackwardRun(fc, o, q, since, xs) && xs != []
    ensures var n := |xs| - 1;
            IsBackwardPage(fc, BackwardCursor(o, xs[..n]), xs[n].Query(q), since, xs[n].page)
    decreases |xs|
  {
    hide IsBackwardPage;
    var n := |xs| - 1;
    if n > 0 {
      BackwardLast(fc, xs[0].page.firstOffset, q, since, xs[1..]);
      assert xs[1..][..n - 1] == xs[..n][1..];
    }
  }

  lemma {:induction false} BackwardComplete(fc: FileChain, o: nat, q: Query, since: int, xs: seq<Exchange>)
    requires fc.Valid() && BackwardRun(fc, o, q, since, xs)
    requires xs != [] && xs[|xs| - 1].page.lines == [] && xs[|xs| - 1].count >= 1
    ensures Prepended(xs) == Behind(fc, o, q, since)
  {
    BackwardPaging(fc, o, q, since, xs);
    BackwardLast(fc, o, q, since, xs);
    var n := |xs| - 1;
    var o' := BackwardCursor(o, xs[..n]);
    SameBehind(fc, o', q, xs[n], since);
    hide Before, Wanted;
    assert Behind(fc, o', q, since) == [];
  }

  /** There are no more non-empty pages than matches, so a backward run gets to the empty one. */
  lemma {:induction false} BackwardProgress(fc: FileChain, o: nat, q: Query, since: int, xs: seq<Exchange>)
    requires fc.Valid() && BackwardRun(fc, o, q, since, xs)
    requires forall i | 0 <= i < |xs| :: xs[i].page.lines != []
    ensures |xs| <= |Behind(fc, o, q, since)|
    decreases |xs|
  {
    hide Behind, IsBackwardPage;
    if xs != [] {
      var p := xs[0].page;
      BehindPage(fc, o, xs[0].Query(q), since, p);
      SameBehind(fc, o, q, xs[0], since);
      SameBehind(fc, p.firstOffset, q, xs[0], since);
      BackwardProgress(fc, p.firstOffset, q, since, xs[1..]);
    }
  }

  // ---- The two directions agree ---------------------------------------------------

  lemma {:induction false} TrimNoCr(b: Bytes)
    requires NoCr(b)
    ensures TrimCr(b) == b
  {}

  lemma {:induction false} LinesNoCr(b: Bytes, lo: nat, hi: nat, base: nat)
    requires lo <= hi <= |b| && NoCr(b)
    ensures forall l <- LinesIn(b, lo, hi, base) :: NoCr(l.text)
    decreases hi - lo
  {
    hide LinesIn, NextLf;
    if lo == hi {
      LinesNone(b, lo, base);
    } else {
      LinesStep(b, lo, hi, base);
      var i := NextLf(b, lo, hi);
      if i < hi {
        LinesNoCr(b, i + 1, hi, base);
      }
    }
  }

  /** Short lines without CR need no tidying. */
  lemma {:induction false} TidyNothing(ls: seq<Line>, maxLine: nat)
    requires forall l <- ls :: |l.text| <= maxLine && NoCr(l.text)
    ensures Tidy(ls, maxLine, -1) == ls
  {
    hide TrimCr, NoCr;
    if ls != [] {
      assert ls[0] in ls;
      TrimNoCr(ls[0].text);
      TidyNothing(ls[1..], maxLine);
    }
  }

  /** The part of a file a limited scanner never gets to: its first over-long line and all after it. */
  function Unscanned(ls: seq<Line>, maxLine: nat): seq<Line> {
    ls[|ShortPrefix(ls, maxLine)|..]
  }

  /** What a backward read finds in one file, against what a scan of it delivers. */
  lemma {:induction false} FileBothWays(cf: ChainFile, q: Query)
    requires NoCr(cf.data)
    ensures
      var ls := LinesOf(cf.data, cf.start);
      Wanted(ls, q, -1) == Hits(ShortPrefix(ls, q.maxLine), q.accepts) + Wanted(Unscanned(ls, q.maxLine), q, -1)
  {
    var ls := LinesOf(cf.data, cf.start);
    LinesNoCr(cf.data, 0, |cf.data|, cf.start);
    ShortPrefixShort(ls, q.maxLine);
    hide LinesOf, Wanted, ShortPrefix, Hits;
    var short := ShortPrefix(ls, q.maxLine);
    assert ls == short + Unscanned(ls, q.maxLine);
    WantedConcat(short, Unscanned(ls, q.maxLine), q, -1);
    TidyNothing(short, q.maxLine);
    WantedIs(short, q);
  }

  lemma {:induction false} WantedIs(ls: seq<Line>, q: Query)
    ensures Wanted(ls, q, -1) == Hits(Tidy(ls, q.maxLine, -1), q.accepts)
  {}

  lemma {:induction false} ShortPrefixShort(ls: seq<Line>, maxLine: nat)
    ensures AllShort(ShortPrefix(ls, maxLine), maxLine)
    ensures AllShort(ls, maxLine) ==> ShortPrefix(ls, maxLine) == ls
  {
    if ls != [] {
      assert ls[0] in ls;
      ShortPrefixShort(ls[1..], maxLine);
    }
  }

  /** No file holds, at or after its first over-long line, a line a backward read would return. */
  ghost predicate NothingHidden(files: seq<ChainFile>, k: nat, q: Query)
    requires k <= |files|
  {
    forall i | k <= i < |files| ::
      Wanted(Unscanned(LinesOf(files[i].data, files[i].start), q.maxLine), q, -1) == []
  }

  lemma {:induction false} ScanAgainstWalk(files: seq<ChainFile>, k: nat, q: Query)
    requires k <= |files| && NoCrIn(files)
    ensures |Hits(After(files, k, 0, q.maxLine), q.accepts)| <= |Wanted(AllLines(files, k), q, -1)|
    ensures NothingHidden(files, k, q) <==>
              |Hits(After(files, k, 0, q.maxLine), q.accepts)| == |Wanted(AllLines(files, k), q, -1)|
    ensures NothingHidden(files, k, q) ==>
              Hits(After(files, k, 0, q.maxLine), q.accepts) == Wanted(AllLines(files, k), q, -1)
    decreases |files| - k
  {
    if k == |files| {
      ScanNothing(files, q);
      return;
    }
    hide *;
    var cf := files[k];
    ScanAgainstWalk(files, k + 1, q);
    CrFree(files, k);
    FileBothWays(cf, q);
    AfterStep(files, k, 0, q.maxLine);
    AllStep(files, k);
    FileAfterZero(cf, q.maxLine);
    HitsConcat(FileAfter(cf, 0, q.maxLine), After(files, k + 1, 0, q.maxLine), q.accepts);
    WantedConcat(LinesOf(cf.data, cf.start), AllLines(files, k + 1), q, -1);
    HiddenStep(files, k, q);
    AddHidden(
      Hits(FileAfter(cf, 0, q.maxLine), q.accepts), Wanted(Unscanned(LinesOf(cf.data, cf.start), q.maxLine), q, -1),
      Hits(After(files, k + 1, 0, q.maxLine), q.accepts), Wanted(AllLines(files, k + 1), q, -1));
  }

  lemma {:induction false} ScanNothing(files: seq<ChainFile>, q: Query)
    ensures Hits(After(files, |files|, 0, q.maxLine), q.accepts) == []
    ensures Wanted(AllLines(files, |files|), q, -1) == [] && NothingHidden(files, |files|, q)
  {}

  /** A file adds to what the walk finds beyond the scan exactly what it hides. */
  lemma {:induction false} AddHidden(seen: seq<Line>, hidden: seq<Line>, scanned: seq<Line>, walked: seq<Line>)
    requires |scanned| <= |walked|
    ensures |seen + scanned| <= |(seen + hidden) + walked|
    ensures |seen + scanned| == |(seen + hidden) + walked| <==> hidden == [] && |scanned| == |walked|
    ensures hidden == [] && scanned == walked ==> seen + scanned == (seen + hidden) + walked
  {
    assert hidden == [] ==> seen + hidden == seen;
  }

  lemma {:induction false} CrFree(files: seq<ChainFile>, k: nat)
    requires NoCrIn(files) && k < |files|
    ensures NoCr(files[k].data)
  {}

  lemma {:induction false} HiddenStep(files: seq<ChainFile>, k: nat, q: Query)
    requires k < |files|
    ensures NothingHidden(files, k, q) <==>
              && Wanted(Unscanned(LinesOf(files[k].data, files[k].start), q.maxLine), q, -1) == []
              && NothingHidden(files, k + 1, q)
  {
    hide LinesOf, Wanted, Unscanned;
  }

  lemma {:induction false} FileAfterZero(cf: ChainFile, maxLine: nat)
    ensures FileAfter(cf, 0, maxLine) == ShortPrefix(LinesOf(cf.data, cf.start), maxLine)
  {
    hide LinesOf, LinesIn, ShortPrefix;
  }

  lemma {:induction false} EarlierAndRest(files: seq<ChainFile>, k: nat)
    requires k <= |files|
    ensures AllLines(files, 0) == Earlier(files, k) + AllLines(files, k)
  {
    hide LinesOf;
    if k > 0 {
      EarlierAndRest(files, k - 1);
    }
  }

  /** Before the end of the chain is the whole chain. */
  lemma {:induction false} BeforeEnd(fc: FileChain)
    requires fc.Valid()
    ensures Before(fc.files, |fc.files|, fc.total) == AllLines(fc.files, 0)
  {
    var n := |fc.files|;
    forall i | 0 <= i < n ensures fc.files[i].start + |fc.files[i].data| <= fc.total {
      if i < n - 1 {
        StartsOrdered(fc, i, n - 1);
      }
    }
    BeforeIsEarlier(fc.files, n, fc.total);
    EarlierAndRest(fc.files, n);
  }

  /**
   Paging backward from the tail and paging forward from 0 deliver the same lines, at the same
   offsets and in the same order, whatever the counts and budgets, exactly when no file holds a
   wanted line at or after its first line of maxLine bytes or more.
   */
  lemma {:induction false} BackwardAgreesWithForward(fc: FileChain, q: Query, back: seq<Exchange>, forth: seq<Exchange>)
    requires fc.Valid() && NoCrIn(fc.files)
    requires BackwardRun(fc, fc.total, q, -1, back) && back != []
    requires back[|back| - 1].page.lines == [] && back[|back| - 1].count >= 1
    requires ForwardRun(fc, 0, q, forth) && forth != []
    requires forth[|forth| - 1].page.lines == [] && forth[|forth| - 1].count >= 1
    ensures Prepended(back) == Delivered(forth) <==> NothingHidden(fc.files, 0, q)
  {
    BackwardComplete(fc, fc.total, q, -1, back);
    ForwardComplete(fc, 0, q, forth);
    BeforeEnd(fc);
    hide BackwardRun, ForwardRun, Prepended, Delivered, Before, After, AllLines, Wanted, Hits, NothingHidden;
    ScanAgainstWalk(fc.files, 0, q);
  }

  /** A chain of one line of n bytes, each an 'A', and its LF. */
  function LongLineChain(n: nat): FileChain {
    FileChain([ChainFile(seq(n, i => 65) + [LF], 0, n + 1)], n + 1)
  }

  /**
   They can disagree: in a chain of one terminated line of exactly maxLine bytes, which the filter
   accepts, the backward read finds the line and the forward read finds nothing, for every maxLine.
   */
  lemma {:induction false} DirectionsCanDisagree(q: Query)
    requires q.maxLine >= 1 && q.count >= 1 && q.accepts(seq(q.maxLine, i => 65))
    ensures var fc, l := LongLineChain(q.maxLine), Line(seq(q.maxLine, i => 65), 0);
            && fc.Valid() && NoCrIn(fc.files) && !NothingHidden(fc.files, 0, q)
            && IsBackwardPage(fc, fc.total, q, -1, Page([l], 0, fc.total))
            && IsForwardPage(fc, 0, q, Page([], 0, 0))
  {
    var fc, l := LongLineChain(q.maxLine), Line(seq(q.maxLine, i => 65), 0);
    LongLineLines(q.maxLine);
    LongLine(l, q);
    SizeOfOne(l);
    hide LinesIn, NextLf, Hits, Tidy, ShortPrefix, Before, After, AllLines, FileAfter, Size, Wanted, Unscanned;
    BeforeEnd(fc);
    AfterStep(fc.files, 0, 0, q.maxLine);
    AfterNone(fc.files, 0, q.maxLine);
    FileAfterZero(fc.files[0], q.maxLine);
    assert After(fc.files, 0, 0, q.maxLine) == [];
  }

  lemma {:induction false} LongLineLines(n: nat)
    ensures var fc, l := LongLineChain(n), Line(seq(n, i => 65), 0);
            && fc.Valid() && NoCrIn(fc.files)
            && LinesOf(fc.files[0].data, 0) == [l] && AllLines(fc.files, 0) == [l]
  {
    var fc := LongLineChain(n);
    var text: Bytes, data := seq(n, i => 65), fc.files[0].data;
    assert forall i | 0 <= i < n :: data[i] == 65;
    assert data[..n] == text && data[0..n] == text;
    LinesHead(data, 0, n, n + 1, 0);
    LinesNone(data, n + 1, 0);
    hide LinesIn, NextLf, AllLines;
    AllStep(fc.files, 0);
    NoMoreLines(fc.files);
  }

  lemma {:induction false} NoMoreLines(files: seq<ChainFile>)
    ensures AllLines(files, |files|) == []
  {}

  lemma {:induction false} SizeOfOne(l: Line)
    ensures Size([l]) == |l.text|
  {
    assert [l][1..] == [];
  }

  lemma {:induction false} LongLine(l: Line, q: Query)
    requires |l.text| == q.maxLine >= 1 && NoCr(l.text) && q.accepts(l.text)
    ensures ShortPrefix([l], q.maxLine) == [] && Hits([], q.accepts) == []
    ensures Wanted([l], q, -1) == [l] && Wanted(Unscanned([l], q.maxLine), q, -1) == [l]
  {
    TrimNoCr(l.text);
    WantedLast([], l, q, -1);
    assert Wanted([], q, -1) == [];
    assert [] + [l] == [l] && [l][0..] == [l];
    assert ShortPrefix([l], q.maxLine) == [];
  }

  /** With every line shorter than maxLine, nothing is hidden. */
  lemma {:induction false} ShortLinesHideNothing(files: seq<ChainFile>, q: Query)
    requires forall i | 0 <= i < |files| :: AllShort(LinesOf(files[i].data, files[i].start), q.maxLine)
    ensures NothingHidden(files, 0, q)
  {
    hide LinesOf;
    forall i | 0 <= i < |files|
      ensures Wanted(Unscanned(LinesOf(files[i].data, files[i].start), q.maxLine), q, -1) == []
    {
      ShortPrefixShort(LinesOf(files[i].data, files[i].start), q.maxLine);
    }
  }

  // ---- Either side of a boundary ------------------------------------------------------

  lemma {:induction false} AfterIsAll(files: seq<ChainFile>, k: nat, maxLine: nat)
    requires k <= |files|
    requires forall i | 0 <= i < |files| :: AllShort(LinesOf(files[i].data, files[i].start), maxLine)
    ensures After(files, k, 0, maxLine) == AllLines(files, k)
    decreases |files| - k
  {
    if k < |files| {
      hide LinesOf, ShortPrefix;
      ShortPrefixShort(LinesOf(files[k].data, files[k].start), maxLine);
      AfterIsAll(files, k + 1, maxLine);
    }
  }

  /** At any line boundary the lines before it and the lines from it on are the whole chain. */
  lemma {:induction false} BothSides(fc: FileChain, o: nat, maxLine: nat)
    requires fc.Valid() && Boundary(fc.files, o)
    requires forall i | 0 <= i < |fc.files| :: AllShort(LinesOf(fc.files[i].data, fc.files[i].start), maxLine)
    ensures Before(fc.files, |fc.files|, o) + After(fc.files, 0, o, maxLine) == AllLines(fc.files, 0)
  {
    hide LinesIn, Before, After, AllLines, Earlier, ShortPrefix, FileBefore, NextLf;
    var files := fc.files;
    var k :| 0 <= k < |files| && AtLineStart(files[k].data, o - files[k].start);
    var cf, p := files[k], o - files[k].start;
    RestIsAfter(fc, k, p, maxLine);
    AfterIsAll(files, k + 1, maxLine);
    ShortPrefixShort(LinesIn(cf.data, p, |cf.data|, cf.start), maxLine);
    EarlierWhole(fc, k, o);
    BeforeStep(files, k + 1, o);
    forall i | k < i < |files| ensures o <= files[i].start {
      StartsOrdered(fc, k, i);
    }
    BeforeSkips(files, k + 1, |files|, o);
    EarlierAndRest(files, k);
    AllStep(files, k);
    BoundaryInFile(cf, p);
    hide FileChain.Valid, AllShort, AtLineStart, Boundary;
    var later := LinesIn(cf.data, p, |cf.data|, cf.start);
    Assoc(Earlier(files, k), FileBefore(cf, o), later + AllLines(files, k + 1));
    Assoc(FileBefore(cf, o), later, AllLines(files, k + 1));
  }

  lemma {:induction false} BoundaryInFile(cf: ChainFile, p: nat)
    requires AtLineStart(cf.data, p)
    ensures FileBefore(cf, cf.start + p) + LinesIn(cf.data, p, |cf.data|, cf.start) == LinesOf(cf.data, cf.start)
  {
    hide LinesIn;
    LinesNone(cf.data, 0, cf.start);
    LinesAt(cf.data, 0, p, |cf.data|, cf.start);
  }

  lemma {:induction false} AllStep(files: seq<ChainFile>, k: nat)
    requires k < |files|
    ensures AllLines(files, k) == LinesOf(files[k].data, files[k].start) + AllLines(files, k + 1)
  {
    hide LinesOf;
  }

  /** An unlimited read backward from a boundary, then one forward from it, return every matching line. */
  lemma {:induction false} BothSidesPages(fc: FileChain, o: nat, q: Query, back: Page, forth: Page)
    requires fc.Valid() && NoCrIn(fc.files) && Boundary(fc.files, o)
    requires forall i | 0 <= i < |fc.files| :: AllShort(LinesOf(fc.files[i].data, fc.files[i].start), q.maxLine)
    requires IsBackwardPage(fc, o, q, -1, back) && IsForwardPage(fc, o, q, forth)
    requires q.count >= |AllLines(fc.files, 0)| && q.budget >= Size(AllLines(fc.files, 0))
    ensures back.lines + forth.lines == Hits(AllLines(fc.files, 0), q.accepts)
  {
    BothSides(fc, o, q.maxLine);
    var b, a := Before(fc.files, |fc.files|, o), After(fc.files, 0, o, q.maxLine);
    BeforeTidy(fc, |fc.files|, o, q.maxLine);
    hide Before, After, AllLines, Hits, Tidy, LinesOf;
    HitsConcat(b, a, q.accepts);
    SizeConcat(b, a);
    HitsSize(b, q.accepts);
    HitsSize(a, q.accepts);
    WantedIs(b, q);
    WholeRun(back.lines, Hits(b, q.accepts), q);
    WholeOldest(forth.lines, Hits(a, q.accepts), q);
  }

  lemma {:induction false} HitsSize(ls: seq<Line>, f: Bytes -> bool)
    ensures Size(Hits(ls, f)) <= Size(ls) && |Hits(ls, f)| <= |ls|
  {
    if ls != [] {
      HitsSize(ls[1..], f);
      HitsHead(ls[0], ls[1..], f);
      assert ls == [ls[0]] + ls[1..];
      SizeConcat([ls[0]], Hits(ls[1..], f));
    }
  }

  lemma {:induction false} SizeFrom(ls: seq<Line>, n: nat)
    requires n < |ls|
    ensures Size(ls[n..]) == |ls[n].text| + Size(ls[n + 1..])
  {
    assert ls[n..] == [ls[n]] + ls[n + 1..];
    SizeConcat([ls[n]], ls[n + 1..]);
  }

  lemma {:induction false} SizeSplit(ls: seq<Line>, n: nat)
    requires n <= |ls|
    ensures Size(ls) == Size(ls[..n]) + Size(ls[n..])
  {
    assert ls == ls[..n] + ls[n..];
    hide Size;
    SizeConcat(ls[..n], ls[n..]);
  }

  /** Limits that leave room for everything let everything through. */
  lemma {:induction false} WholeRun(r: seq<Line>, ms: seq<Line>, q: Query)
    requires IsNewestRun(r, ms, q.count, q.budget) && |ms| <= q.count && Size(ms) <= q.budget
    ensures r == ms
  {
    hide Size;
    if |r| < |ms| {
      var n := |ms| - |r| - 1;
      SizeSplit(ms, n);
      SizeFrom(ms, n);
    }
  }

  lemma {:induction false} WholeOldest(r: seq<Line>, ms: seq<Line>, q: Query)
    requires IsOldestRun(r, ms, q.count, q.budget) && |ms| <= q.count && Size(ms) <= q.budget
    ensures r == ms
  {
    hide Size;
    if |r| < |ms| {
      var n := |r|;
      assert r == ms[..n];
      SizeSplit(ms, n);
      SizeFrom(ms, n);
    }
  }

  lemma {:induction false} BeforeTidy(fc: FileChain, n: nat, o: nat, maxLine: nat)
    requires fc.Valid() && NoCrIn(fc.files) && n <= |fc.files|
    requires forall i | 0 <= i < |fc.files| :: AllShort(LinesOf(fc.files[i].data, fc.files[i].start), maxLine)
    ensures Tidy(Before(fc.files, n, o), maxLine, -1) == Before(fc.files, n, o)
  {
    BeforeShort(fc, n, o, maxLine);
    hide Before, Tidy, LinesOf;
    TidyNothing(Before(fc.files, n, o), maxLine);
  }

  lemma {:induction false} BeforeShort(fc: FileChain, n: nat, o: nat, maxLine: nat)
    requires fc.Valid() && NoCrIn(fc.files) && n <= |fc.files|
    requires forall i | 0 <= i < |fc.files| :: AllShort(LinesOf(fc.files[i].data, fc.files[i].start), maxLine)
    ensures forall l <- Before(fc.files, n, o) :: |l.text| <= maxLine && NoCr(l.text)
  {
    if n > 0 {
      var cf := fc.files[n - 1];
      CrFree(fc.files, n - 1);
      assert AllShort(LinesOf(cf.data, cf.start), maxLine);
      BeforeShort(fc, n - 1, o, maxLine);
      hide LinesOf, FileBefore, AllShort, Before, NoCr;
      BeforeStep(fc.files, n, o);
      FileShort(cf, o, maxLine);
      InConcat(Before(fc.files, n - 1, o), FileBefore(cf, o));
    } else {
      NothingBeforeFirst(fc.files, o);
    }
  }

  lemma {:induction false} FileShort(cf: ChainFile, o: nat, maxLine: nat)
    requires NoCr(cf.data) && AllShort(LinesOf(cf.data, cf.start), maxLine)
    ensures forall l <- FileBefore(cf, o) :: |l.text| <= maxLine && NoCr(l.text)
  {
    hide LinesIn, NoCr;
    if o > cf.start {
      var hi := if o - cf.start >= |cf.data| then |cf.data| else o - cf.start;
      LinesNoCr(cf.data, 0, hi, cf.start);
      CutShort(cf.data, hi, cf.start, maxLine);
    }
  }

  /** Cutting a file off somewhere does not make any line longer. */
  lemma {:induction false} CutShort(b: Bytes, hi: nat, base: nat, maxLine: nat)
    requires hi <= |b| && AllShort(LinesOf(b, base), maxLine)
    ensures AllShort(LinesIn(b, 0, hi, base), maxLine)
  {
    CutLines(b, 0, hi, base, maxLine);
  }

  lemma {:induction false} CutLines(b: Bytes, lo: nat, hi: nat, base: nat, maxLine: nat)
    requires lo <= hi <= |b| && AllShort(LinesIn(b, lo, |b|, base), maxLine)
    ensures AllShort(LinesIn(b, lo, hi, base), maxLine)
    decreases hi - lo
  {
    hide LinesIn, NextLf;
    if lo == hi {
      LinesNone(b, lo, base);
    } else {
      LinesStep(b, lo, |b|, base);
      LinesStep(b, lo, hi, base);
      var i, j := NextLf(b, lo, |b|), NextLf(b, lo, hi);
      var ls := LinesIn(b, lo, |b|, base);
      assert ls[0] in ls && i >= j;
      if j < hi {
        assert i == j;
        assert forall l <- LinesIn(b, i + 1, |b|, base) :: l in ls;
        CutLines(b, i + 1, hi, base, maxLine);
      }
    }
  }
}
