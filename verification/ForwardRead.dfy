/** Reading a page of matching lines forward from a logical offset. */
module ForwardRead {
  import opened Bytes
  import opened Lines
  import opened Chain

  /** What a request asks for, and the two limits of the reader. */
  datatype Query = Query(count: nat, accepts: Bytes -> bool, maxLine: nat, budget: nat)

  datatype Page = Page(lines: seq<Line>, firstOffset: nat, nextOffset: nat)

  /**
   What a forward page is: the greedy oldest run of the matching lines from o on, and a cursor that
   stays put on an empty page and otherwise moves to a line boundary past the last returned line,
   leaving exactly the undelivered matches ahead of it. A full page leaves the cursor at the end of
   its last line; any other moves it past everything scanned, up to the match that did not fit.
   */
  ghost predicate IsForwardPage(fc: FileChain, o: nat, q: Query, page: Page) {
    var ms := Hits(After(fc.files, 0, o, q.maxLine), q.accepts);
    var n := |page.lines|;
    && IsOldestRun(page.lines, ms, q.count, q.budget)
    && page.firstOffset == (if n == 0 then o else page.lines[0].offset)
    && if n == 0 then page.nextOffset == o else
         && page.lines[n - 1].offset < page.nextOffset <= fc.total
         && Boundary(fc.files, page.nextOffset)
         && var ahead := After(fc.files, 0, page.nextOffset, q.maxLine);
         && Hits(ahead, q.accepts) == ms[n..]
         && if n == q.count
            then page.nextOffset <= page.lines[n - 1].offset + |page.lines[n - 1].text| + 1
            else ahead == [] || (ahead[0].text != [] && q.accepts(ahead[0].text))
  }

  /** What scanning file k from position p and then every later file delivers. */
  ghost function Rest(files: seq<ChainFile>, k: nat, p: nat, maxLine: nat): seq<Line>
    requires k <= |files|
    requires k < |files| ==> p <= |files[k].data|
  {
    if k == |files| then []
    else ShortPrefix(LinesIn(files[k].data, p, |files[k].data|, files[k].start), maxLine)
         + After(files, k + 1, 0, maxLine)
  }

  // ---- Rest is what After says ---------------------------------------------

  lemma {:induction false} AfterAll(files: seq<ChainFile>, k: nat, o: nat, maxLine: nat)
    requires k <= |files| && forall i | k <= i < |files| :: o <= files[i].start
    ensures After(files, k, o, maxLine) == After(files, k, 0, maxLine)
    decreases |files| - k
  {
    hide LinesOf, LinesIn, ShortPrefix;
    if k < |files| {
      AfterAll(files, k + 1, o, maxLine);
    }
  }

  lemma {:induction false} AfterSkips(files: seq<ChainFile>, j: nat, k: nat, o: nat, maxLine: nat)
    requires j <= k <= |files|
    requires forall i | j <= i < k :: files[i].start + |files[i].data| <= o && files[i].start < o
    ensures After(files, j, o, maxLine) == After(files, k, o, maxLine)
    decreases k - j
  {
    hide After, FileAfter;
    if j < k {
      AfterSkips(files, j + 1, k, o, maxLine);
      AfterStep(files, j, o, maxLine);
      FileAfterPast(files[j], o, maxLine);
    }
  }

  lemma {:induction false} FileAfterPast(cf: ChainFile, o: nat, maxLine: nat)
    requires cf.start + |cf.data| <= o && cf.start < o
    ensures FileAfter(cf, o, maxLine) == []
  {}

  lemma {:induction false} FileAfterAt(cf: ChainFile, p: nat, maxLine: nat)
    requires p <= |cf.data|
    ensures FileAfter(cf, cf.start + p, maxLine)
         == ShortPrefix(LinesIn(cf.data, p, |cf.data|, cf.start), maxLine)
  {
    hide LinesIn;
    LinesNone(cf.data, |cf.data|, cf.start);
  }

  lemma {:induction false} AfterStep(files: seq<ChainFile>, k: nat, o: nat, maxLine: nat)
    requires k < |files|
    ensures After(files, k, o, maxLine) == FileAfter(files[k], o, maxLine) + After(files, k + 1, o, maxLine)
  {
    hide FileAfter;
  }

  lemma {:induction false} RestIsAfter(fc: FileChain, k: nat, p: nat, maxLine: nat)
    requires fc.Valid() && k < |fc.files| && p <= fc.files[k].size
    ensures After(fc.files, 0, fc.files[k].start + p, maxLine) == Rest(fc.files, k, p, maxLine)
  {
    hide LinesIn, ShortPrefix, After, FileAfter;
    var files, o := fc.files, fc.files[k].start + p;
    forall i | 0 <= i < k ensures files[i].start + |files[i].data| <= o && files[i].start < o {
      StartsOrdered(fc, i, k);
    }
    forall i | k < i < |files| ensures o <= files[i].start {
      StartsOrdered(fc, k, i);
    }
    AfterSkips(files, 0, k, o, maxLine);
    AfterAll(files, k + 1, o, maxLine);
    AfterStep(files, k, o, maxLine);
    FileAfterAt(files[k], p, maxLine);
  }

  /** Past the end of the chain there is nothing. */
  lemma {:induction false} AfterEnd(fc: FileChain, o: nat, maxLine: nat)
    requires fc.Valid() && o >= fc.total
    ensures After(fc.files, 0, o, maxLine) == []
  {
    var files := fc.files;
    forall i | 0 <= i < |files| ensures files[i].start + |files[i].data| <= o {
      if i < |files| - 1 {
        StartsOrdered(fc, i, |files| - 1);
      }
    }
    AfterSkips(files, 0, |files|, o, maxLine);
  }

  /** A file whose scan has nothing more to deliver leaves what the next file has. */
  lemma {:induction false} RestNextFile(fc: FileChain, k: nat, p: nat, maxLine: nat)
    requires fc.Valid() && k < |fc.files| && p <= fc.files[k].size
    requires ShortPrefix(LinesIn(fc.files[k].data, p, fc.files[k].size, fc.files[k].start), maxLine) == []
    ensures Rest(fc.files, k, p, maxLine) == Rest(fc.files, k + 1, 0, maxLine)
  {
  }

  /** One scanned token: the rest begins with it. */
  lemma {:induction false} RestToken(fc: FileChain, k: nat, p: nat, maxLine: nat)
    requires fc.Valid() && k < |fc.files| && p < fc.files[k].size
    requires NextLf(fc.files[k].data, p, fc.files[k].size) - p < maxLine
    ensures
      var cf := fc.files[k];
      var i := NextLf(cf.data, p, cf.size);
      var q := if i == cf.size then i else i + 1;
      && Rest(fc.files, k, p, maxLine)
         == [Line(cf.data[p..i], cf.start + p)] + Rest(fc.files, k, q, maxLine)
      && AtLineStart(cf.data, q)
  {
    hide LinesIn, NextLf;
    var cf := fc.files[k];
    var i := NextLf(cf.data, p, cf.size);
    var q := if i == cf.size then i else i + 1;
    LinesStep(cf.data, p, cf.size, cf.start);
    LinesNone(cf.data, cf.size, cf.start);
    var ls := LinesIn(cf.data, p, cf.size, cf.start);
    assert ls == [Line(cf.data[p..i], cf.start + p)] + LinesIn(cf.data, q, cf.size, cf.start);
    assert ls[1..] == LinesIn(cf.data, q, cf.size, cf.start);
  }

  // ---- The scanner and the read --------------------------------------------

  /** b without one trailing CR, as the line scanner strips it. */
  function DropCr(b: Bytes): Bytes {
    if b != [] && b[|b| - 1] == CR then b[..|b| - 1] else b
  }

  /** What one step of a line scanner at pos gives. */
  ghost predicate Scanned(data: Bytes, pos: nat, maxLine: nat, ok: bool, token: Bytes, next: nat) {
    && pos <= |data|
    && var i := NextLf(data, pos, |data|);
    && ok == (pos < |data| && i - pos < maxLine)
    && (ok ==> token == DropCr(data[pos..i]) && next == if i == |data| then i else i + 1)
  }

  /** One step of a line scanner over data[pos..]: it stops at the end and on a line of maxLine bytes. */
  method Scan(data: Bytes, pos: nat, maxLine: nat) returns (ok: bool, token: Bytes, next: nat)
    requires pos <= |data|
    ensures Scanned(data, pos, maxLine, ok, token, next)
  {
    var i := pos;
    while i < |data| && data[i] != LF && i - pos < maxLine
      invariant pos <= i <= |data| && (i - pos <= maxLine || i == pos)
      invariant forall k | pos <= k < i :: data[k] != LF
    {
      i := i + 1;
    }
    if pos == |data| || i - pos >= maxLine {
      return false, [], pos;
    }
    return true, DropCr(data[pos..i]), if i == |data| then i else i + 1;
  }

  // ---- The read --------------------------------------------------------------

  /** What a read has collected, the cursor it would return, and whether the budget ended it. */
  datatype Progress = Progress(lines: seq<Line>, bytes: nat, nextOffset: nat, budgetHit: bool) {
    /** The last collected line starts before the logical offset o. */
    predicate EndsBefore(o: int) {
      lines != [] ==> lines[|lines| - 1].offset < o
    }
  }

  /**
   Where a forward read stands: what is still to be scanned is `rest`, and the cursor, place p of
   file k, leaves the same matches ahead.
   */
  ghost predicate Reading(fc: FileChain, q: Query, ms: seq<Line>, w: Progress, rest: seq<Line>, k: nat, p: nat) {
    && ms == w.lines + Hits(rest, q.accepts)
    && w.bytes == Size(w.lines)
    && |w.lines| <= q.count
    && (|w.lines| <= 1 || w.bytes <= q.budget)
    && k < |fc.files| && p <= |fc.files[k].data|
    && Rest(fc.files, k, p, q.maxLine) == rest
    && w.EndsBefore(w.nextOffset)
    && (w.lines != [] ==>
          && w.nextOffset == fc.files[k].start + p && AtLineStart(fc.files[k].data, p)
          && (|w.lines| == q.count ==>
                var last := w.lines[|w.lines| - 1]; w.nextOffset <= last.offset + |last.text| + 1))
    && (w.budgetHit ==>
          && w.lines != [] && rest != [] && rest[0].text != [] && q.accepts(rest[0].text)
          && w.bytes + |rest[0].text| > q.budget)
  }

  /** A read about to scan file fileIdx from physOffset, past every line it has collected. */
  ghost predicate Ready(fc: FileChain, q: Query, fileIdx: nat, physOffset: nat, w: Progress, rest: seq<Line>) {
    && fileIdx <= |fc.files|
    && (fileIdx < |fc.files| ==>
          physOffset <= |fc.files[fileIdx].data| && w.EndsBefore(fc.files[fileIdx].start + physOffset))
    && rest == Rest(fc.files, fileIdx, physOffset, q.maxLine)
  }

  lemma {:induction false} StartReading(fc: FileChain, o: nat, q: Query, k: nat, p: nat)
    requires fc.Valid() && k < |fc.files| && p <= fc.files[k].size
    requires if o >= fc.total then k == |fc.files| - 1 && p == fc.files[k].size else o == fc.files[k].start + p
    ensures Reading(fc, q, Hits(After(fc.files, 0, o, q.maxLine), q.accepts),
                    Progress([], 0, o, false), Rest(fc.files, k, p, q.maxLine), k, p)
    ensures Ready(fc, q, k, p, Progress([], 0, o, false), Rest(fc.files, k, p, q.maxLine))
  {
    hide Hits, LinesIn, ShortPrefix, After, Rest;
    RestIsAfter(fc, k, p, q.maxLine);
    if o >= fc.total {
      AfterEnd(fc, o, q.maxLine);
      AfterEnd(fc, fc.files[k].start + p, q.maxLine);
    }
  }

  lemma {:induction false} HitsHead(l: Line, rest: seq<Line>, f: Bytes -> bool)
    ensures Hits([l] + rest, f) == if l.text != [] && f(l.text) then [l] + Hits(rest, f) else Hits(rest, f)
  {
    assert ([l] + rest)[1..] == rest;
  }

  /** A scanned token moves the read on: collected if it matches, passed over if not. */
  lemma {:induction false} SizeSnoc(ls: seq<Line>, l: Line)
    ensures Size(ls + [l]) == Size(ls) + |l.text|
  {
    SizeConcat(ls, [l]);
    assert [l][1..] == [];
  }

  lemma {:induction false} ScanLine(
    fc: FileChain, q: Query, ms: seq<Line>, w: Progress, l: Line, rest: seq<Line>, k: nat, p: nat, w': Progress, k': nat, p': nat)
    requires Reading(fc, q, ms, w, [l] + rest, k, p)
    requires k' < |fc.files| && p' <= |fc.files[k'].data| && rest == Rest(fc.files, k', p', q.maxLine)
    requires AtLineStart(fc.files[k'].data, p')
    requires l.offset < fc.files[k'].start + p' <= l.offset + |l.text| + 1 && w.EndsBefore(fc.files[k'].start + p')
    requires |w.lines| < q.count && w'.nextOffset == fc.files[k'].start + p' && !w'.budgetHit
    requires if l.text != [] && q.accepts(l.text)
             then (w.lines == [] || w.bytes + |l.text| <= q.budget)
                  && w'.lines == w.lines + [l] && w'.bytes == w.bytes + |l.text|
             else w'.lines == w.lines && w'.bytes == w.bytes
    ensures Reading(fc, q, ms, w', rest, k', p')
  {
    hide Hits, LinesIn, ShortPrefix, After, Rest, AtLineStart;
    HitsHead(l, rest, q.accepts);
    SizeSnoc(w.lines, l);
    Assoc(w.lines, [l], Hits(rest, q.accepts));
    hide Size;
  }

  lemma {:induction false} RestNone(files: seq<ChainFile>, maxLine: nat, f: Bytes -> bool)
    ensures Rest(files, |files|, 0, maxLine) == [] && Hits([], f) == []
  {}

  lemma {:induction false} PlaceInChain(fc: FileChain, k: nat, p: nat)
    requires fc.Valid() && k < |fc.files| && p <= |fc.files[k].data|
    ensures p <= fc.files[k].size && fc.files[k].start + p <= fc.total
    ensures AtLineStart(fc.files[k].data, p) ==> Boundary(fc.files, fc.files[k].start + p)
  {
    if k < |fc.files| - 1 {
      StartsOrdered(fc, k, |fc.files| - 1);
    }
    var o := fc.files[k].start + p;
    assert o - fc.files[k].start == p;
  }

  lemma {:induction false} RunDone(
    fc: FileChain, q: Query, ms: seq<Line>, w: Progress, rest: seq<Line>, k: nat, p: nat)
    requires Reading(fc, q, ms, w, rest, k, p)
    requires |w.lines| == q.count || w.budgetHit || Hits(rest, q.accepts) == []
    ensures IsOldestRun(w.lines, ms, q.count, q.budget)
  {
    hide Hits, Size, Rest, AtLineStart;
    if w.budgetHit {
      assert rest == [rest[0]] + rest[1..];
      HitsHead(rest[0], rest[1..], q.accepts);
    }
  }

  lemma {:induction false} CursorDone(
    fc: FileChain, q: Query, ms: seq<Line>, w: Progress, rest: seq<Line>, k: nat, p: nat)
    requires fc.Valid() && Reading(fc, q, ms, w, rest, k, p) && w.lines != []
    requires |w.lines| == q.count || w.budgetHit || rest == []
    ensures var last, ahead := w.lines[|w.lines| - 1], After(fc.files, 0, w.nextOffset, q.maxLine);
            && last.offset < w.nextOffset <= fc.total && Boundary(fc.files, w.nextOffset)
            && Hits(ahead, q.accepts) == ms[|w.lines|..]
            && if |w.lines| == q.count then w.nextOffset <= last.offset + |last.text| + 1
               else ahead == [] || (ahead[0].text != [] && q.accepts(ahead[0].text))
  {
    hide Hits, Rest, After, FileChain.Valid, Boundary, AtLineStart, Reading;
    ReadingMeans(fc, q, ms, w, rest, k, p);
    PlaceInChain(fc, k, p);
    RestIsAfter(fc, k, p, q.maxLine);
  }

  lemma {:induction false} ReadingMeans(
    fc: FileChain, q: Query, ms: seq<Line>, w: Progress, rest: seq<Line>, k: nat, p: nat)
    requires Reading(fc, q, ms, w, rest, k, p) && w.lines != []
    ensures k < |fc.files| && p <= |fc.files[k].data| && w.nextOffset == fc.files[k].start + p
    ensures rest == Rest(fc.files, k, p, q.maxLine) && AtLineStart(fc.files[k].data, p)
    ensures ms[|w.lines|..] == Hits(rest, q.accepts)
    ensures var last := w.lines[|w.lines| - 1];
            && last.offset < w.nextOffset
            && (|w.lines| == q.count ==> w.nextOffset <= last.offset + |last.text| + 1)
    ensures w.budgetHit ==> rest != [] && rest[0].text != [] && q.accepts(rest[0].text)
  {
    hide Hits, Size, Rest, AtLineStart;
    DropConcat(w.lines, Hits(rest, q.accepts), |w.lines|);
  }

  /** When a read may stop, what it has is a page. */
  lemma {:induction false} FinishPage(
    fc: FileChain, o: nat, q: Query, ms: seq<Line>, w: Progress, rest: seq<Line>, k: nat, p: nat, page: Page)
    requires fc.Valid() && ms == Hits(After(fc.files, 0, o, q.maxLine), q.accepts)
    requires Reading(fc, q, ms, w, rest, k, p)
    requires |w.lines| == q.count || w.budgetHit || Ready(fc, q, |fc.files|, 0, w, rest)
    requires page == if w.lines == [] then Page([], o, o) else Page(w.lines, w.lines[0].offset, w.nextOffset)
    ensures IsForwardPage(fc, o, q, page)
  {
    RestNone(fc.files, q.maxLine, q.accepts);
    hide Hits, Rest, LinesIn, ShortPrefix, After, IsOldestRun, Reading, Size, Boundary, FileChain.Valid;
    RunDone(fc, q, ms, w, rest, k, p);
    if w.lines != [] {
      CursorDone(fc, q, ms, w, rest, k, p);
    }
  }

  /** A scanner that stops has nothing more to deliver from its file. */
  lemma {:induction false} ScanEnds(b: Bytes, pos: nat, base: nat, maxLine: nat)
    requires pos <= |b| && !(pos < |b| && NextLf(b, pos, |b|) - pos < maxLine)
    ensures ShortPrefix(LinesIn(b, pos, |b|, base), maxLine) == []
  {
    hide LinesIn, NextLf;
    if pos == |b| {
      LinesNone(b, pos, base);
    } else {
      LinesStep(b, pos, |b|, base);
    }
  }

  /** One file's share of a forward read. */
  method ScanFile(fc: FileChain, fileIdx: nat, physOffset: nat, q: Query, w0: Progress,
                  ghost ms: seq<Line>, ghost rest0: seq<Line>, ghost k0: nat, ghost p0: nat)
    returns (w: Progress, ghost rest: seq<Line>, ghost k: nat, ghost p: nat)
    requires fc.Valid() && NoCrIn(fc.files)
    requires fileIdx < |fc.files| && |w0.lines| < q.count && !w0.budgetHit
    requires Reading(fc, q, ms, w0, rest0, k0, p0)
    requires Ready(fc, q, fileIdx, physOffset, w0, rest0)
    ensures Reading(fc, q, ms, w, rest, k, p)
    ensures |w.lines| < q.count && !w.budgetHit ==> Ready(fc, q, fileIdx + 1, 0, w, rest)
  {
    hide Hits, Size, Rest, LinesIn, NextLf, ShortPrefix, After, Reading;
    w, rest, k, p := w0, rest0, k0, p0;
    var cf := fc.files[fileIdx];
    var currentLogical := cf.start + physOffset;
    var pos := physOffset; // how far into the file the scanner has got

    var scanned, raw, next := Scan(cf.data, pos, q.maxLine);
    while scanned && |w.lines| < q.count
      invariant pos <= cf.size && currentLogical == cf.start + pos && w.EndsBefore(currentLogical)
      invariant Scanned(cf.data, pos, q.maxLine, scanned, raw, next)
      invariant Reading(fc, q, ms, w, rest, k, p) && !w.budgetHit
      invariant rest == Rest(fc.files, fileIdx, pos, q.maxLine)
      decreases |cf.data| - pos
    {
      RestToken(fc, fileIdx, pos, q.maxLine);
      ghost var was := w;
      ghost var l := Line(cf.data[pos..NextLf(cf.data, pos, cf.size)], currentLogical);
      assert raw == l.text;
      var lineLen := |raw| + 1;
      if |raw| > 0 && q.accepts(raw) {
        if |w.lines| > 0 && w.bytes + |raw| > q.budget {
          Refuse(fc, q, ms, w, l, Rest(fc.files, fileIdx, next, q.maxLine), k, p);
          w := w.(budgetHit := true);
          break;
        }
        w := w.(lines := w.lines + [Line(raw, currentLogical)], bytes := w.bytes + |raw|);
      }
      currentLogical := currentLogical + lineLen;
      var fileEnd := cf.start + cf.size;
      if currentLogical > fileEnd {
        currentLogical := fileEnd;
      }
      w := w.(nextOffset := currentLogical);
      rest := Rest(fc.files, fileIdx, next, q.maxLine);
      ScanLine(fc, q, ms, was, l, rest, k, p, w, fileIdx, next);
      k, p, pos := fileIdx, next, next;
      scanned, raw, next := Scan(cf.data, pos, q.maxLine);
    }
    if |w.lines| < q.count && !w.budgetHit {
      ScanEnds(cf.data, pos, cf.start, q.maxLine);
      RestNextFile(fc, fileIdx, pos, q.maxLine);
    }
  }

  /** A match over the budget ends the read with the cursor before it. */
  lemma {:induction false} Refuse(fc: FileChain, q: Query, ms: seq<Line>, w: Progress, l: Line, rest: seq<Line>, k: nat, p: nat)
    requires Reading(fc, q, ms, w, [l] + rest, k, p)
    requires l.text != [] && q.accepts(l.text) && w.lines != [] && w.bytes + |l.text| > q.budget
    ensures Reading(fc, q, ms, w.(budgetHit := true), [l] + rest, k, p)
  {
    HitsHead(l, rest, q.accepts);
    hide Hits, LinesIn, ShortPrefix, After, Rest;
  }

  /** Reads up to count matching lines forward from logicalOffset, across files. */
  method ReadForward(fc: FileChain, logicalOffset: nat, q: Query) returns (page: Page)
    requires fc.Valid() && NoCrIn(fc.files)
    ensures IsForwardPage(fc, logicalOffset, q, page)
  {
    hide Hits, Size, Rest, LinesIn, NextLf, ShortPrefix, After, IsForwardPage, Reading;
    if fc.Empty() || q.count == 0 {
      NothingToRead(fc, logicalOffset, q);
      return Page([], logicalOffset, logicalOffset);
    }

    var fileIdx: nat, physOffset: nat := fc.FileAt(logicalOffset);
    var w := Progress([], 0, logicalOffset, false);

    ghost var ms := Hits(After(fc.files, 0, logicalOffset, q.maxLine), q.accepts);
    ghost var rest, k: nat, p: nat := Rest(fc.files, fileIdx, physOffset, q.maxLine), fileIdx, physOffset;
    StartReading(fc, logicalOffset, q, k, p);

    hide FileChain.Valid, NoCrIn, Ready;
    while fileIdx < |fc.files| && |w.lines| < q.count && !w.budgetHit
      invariant fileIdx <= |fc.files| && (fileIdx == |fc.files| ==> physOffset == 0)
      invariant Reading(fc, q, ms, w, rest, k, p)
      invariant |w.lines| < q.count && !w.budgetHit ==> Ready(fc, q, fileIdx, physOffset, w, rest)
    {
      w, rest, k, p := ScanFile(fc, fileIdx, physOffset, q, w, ms, rest, k, p);
      fileIdx := fileIdx + 1;
      physOffset := 0;
    }

    CountReached(fc, q, ms, w, rest, k, p);
    page := if w.lines == [] then Page([], logicalOffset, logicalOffset)
            else Page(w.lines, w.lines[0].offset, w.nextOffset);
    FinishPage(fc, logicalOffset, q, ms, w, rest, k, p, page);
  }

  lemma {:induction false} NothingToRead(fc: FileChain, o: nat, q: Query)
    requires fc.Empty() || q.count == 0
    ensures IsForwardPage(fc, o, q, Page([], o, o))
  {}

  lemma {:induction false} CountReached(fc: FileChain, q: Query, ms: seq<Line>, w: Progress, rest: seq<Line>, k: nat, p: nat)
    requires Reading(fc, q, ms, w, rest, k, p)
    ensures |w.lines| <= q.count
  {}
}
