/**
 The live tail of the page in the browser: one request loads the last lines, and polls then follow
 the chain with a cursor while the server keeps appending and rotating.
 */
module LiveTail {
  import opened Bytes
  import opened Lines
  import opened Chain
  import opened ForwardRead
  import opened BackwardRead
  import opened Paging
  import opened EndToEnd
  import R = Rotation
  import TextEscape

  // ---- GET /lines ----------------------------------------------------------------------

  datatype Direction = Tail | Backward | Forward

  datatype Response = Response(lines: seq<Line>, firstOffset: nat, nextOffset: nat, tailOffset: nat)

  /** Nothing before since is shown; since is -1 when it was not given. */
  function From(offset: nat, since: int): nat {
    if since >= 0 && offset < since then since else offset
  }

  /** The page a request is for: the last lines, the lines before an offset, or those from it on. */
  ghost predicate IsPageFor(fc: FileChain, dir: Direction, offset: nat, since: int, q: Query, page: Page) {
    match dir
    case Tail => IsBackwardPage(fc, fc.total, q, since, page)
    case Backward => IsBackwardPage(fc, offset, q, since, page)
    case Forward => IsForwardPage(fc, From(offset, since), q, page)
  }

  /** Whether the chain holds nothing at or after since. */
  predicate Nothing(fc: FileChain, since: int) {
    fc.Empty() || (since >= 0 && since >= fc.total)
  }

  /** The answer to a request; one that reads nothing leaves the caller's cursor where it was. */
  ghost predicate IsAnswer(fc: FileChain, dir: Direction, offset: nat, since: int, q: Query, r: Response) {
    && r.tailOffset == fc.total
    && if Nothing(fc, since)
       then r == Response([], 0, if dir.Tail? then fc.total else offset, fc.total)
       else IsPageFor(fc, dir, offset, since, q, Page(r.lines, r.firstOffset, r.nextOffset))
  }

  method GetLines(fc: FileChain, dir: Direction, offset: nat, since: int, q: Query, chunkSize: nat)
    returns (resp: Response)
    requires fc.Valid() && NoCrIn(fc.files) && 1 <= chunkSize <= q.maxLine
    ensures IsAnswer(fc, dir, offset, since, q, resp)
    ensures resp.tailOffset == fc.total
    ensures resp.lines == [] && !dir.Forward? ==> resp.nextOffset == if dir.Tail? then fc.total else offset
    ensures fc.Empty() || (since >= 0 && since >= fc.total) ==>
              resp.lines == [] && resp.nextOffset == if dir.Tail? then fc.total else offset
  {
    resp := Response([], 0, 0, fc.total);
    if dir.Tail? {
      resp := resp.(nextOffset := fc.total);
    } else {
      resp := resp.(nextOffset := offset);
    }
    var page;
    if fc.Empty() || (since >= 0 && since >= fc.total) {
      return;
    } else if dir.Tail? {
      page := ReadBackward(fc, fc.total, q, since, chunkSize);
    } else if dir.Backward? {
      page := ReadBackward(fc, offset, q, since, chunkSize);
    } else {
      var from := offset;
      if since >= 0 && from < since {
        from := since;
      }
      page := ReadForward(fc, from, q);
    }
    resp := Response(page.lines, page.firstOffset, page.nextOffset, fc.total);
  }

  /** The short cut hides nothing: a read would have found no line either. */
  lemma {:induction false} ShortCutIsAPage(fc: FileChain, offset: nat, since: int, q: Query)
    requires fc.Valid() && Nothing(fc, since)
    ensures IsPageFor(fc, Tail, offset, since, q, Page([], fc.total, fc.total))
    ensures IsPageFor(fc, Backward, offset, since, q, Page([], offset, offset))
    ensures IsPageFor(fc, Forward, offset, since, q, Page([], From(offset, since), From(offset, since)))
  {
    NothingBehind(fc, fc.total, since, q);
    NothingBehind(fc, offset, since, q);
    NothingAhead(fc, From(offset, since), since, q);
    hide Ahead, Behind, After, Before, Hits, Tidy, Boundary, Size;
  }

  lemma {:induction false} NothingBehind(fc: FileChain, o: nat, since: int, q: Query)
    requires fc.Valid() && Nothing(fc, since)
    ensures Behind(fc, o, q, since) == []
  {
    var n := |fc.files|;
    hide Before;
    NoHits(q, since);
    if fc.Empty() {
      NoFiles(fc, o);
    } else {
      BeforeInChain(fc, n, o);
      TidyNone(Before(fc.files, n, o), q.maxLine, since);
    }
  }

  lemma {:induction false} NoHits(q: Query, since: int)
    ensures Hits([], q.accepts) == [] && Tidy([], q.maxLine, since) == []
  {}

  lemma {:induction false} NoFiles(fc: FileChain, o: nat)
    requires fc.files == []
    ensures Before(fc.files, 0, o) == [] && forall maxLine :: After(fc.files, 0, o, maxLine) == []
  {}

  // ---- What an append does to a chain ------------------------------------------------------

  /** Whole records only: every file ends with an LF, no CR, and no line a scanner would give up on. */
  ghost predicate Whole(fc: FileChain, maxLine: nat) {
    && fc.Valid() && NoCrIn(fc.files)
    && (forall i | 0 <= i < |fc.files| :: fc.files[i].data != [] && fc.files[i].data[|fc.files[i].data| - 1] == LF)
    && forall i | 0 <= i < |fc.files| :: AllShort(LinesOf(fc.files[i].data, fc.files[i].start), maxLine)
  }

  /** A place a tail can wait at: between two records, or the start of a chain with none. */
  ghost predicate Cursor(fc: FileChain, o: nat) {
    if fc.Empty() then o == 0 else Boundary(fc.files, o)
  }

  /** One more record at the end of file k, the newest, or in a file of its own. */
  ghost predicate GrownAt(a: FileChain, b: FileChain, r: Bytes, k: nat, base: nat, data: Bytes) {
    && k <= |a.files| <= k + 1 && k + 1 == |b.files| && b.files[..k] == a.files[..k]
    && base + |data| == a.total && b.total == a.total + |r| + 1
    && b.files[k] == ChainFile(data + (r + [LF]), base, |data| + |r| + 1)
    && if |a.files| == k then data == [] else a.files[k] == ChainFile(data, base, |data|)
  }

  ghost predicate Grown(a: FileChain, b: FileChain, r: Bytes) {
    exists k: nat, base: nat, data: Bytes :: GrownAt(a, b, r, k, base, data)
  }

  lemma {:induction false} AppendGrows(a: World, b: World, r: Bytes, m: nat)
    requires WriteStep(a, b, r)
    ensures Grown(ChainOf(a.disk, m), ChainOf(b.disk, m), r)
  {
    hide Present, Layout, Flatten;
    PresentAbove(a.disk, b.disk, m, 1);
    PresentActive(a.disk, m);
    PresentActive(b.disk, m);
    var older, data: Bytes := Present(a.disk, m, 1), if 0 in a.disk then a.disk[0] else [];
    var fa, fb := ChainOf(a.disk, m), ChainOf(b.disk, m);
    var k, base: nat := |Layout(older, 0)|, |Flatten(older)|;
    LayoutSnoc(older, data, 0);
    LayoutSnoc(older, data + (r + [LF]), 0);
    assert older + [] == older;
    assert b.disk[0] == data + (r + [LF]);
    assert fb.files[..k] == fa.files[..k];
    assert GrownAt(fa, fb, r, k, base, data);
  }

  lemma {:induction false} AllLinesPrefix(a: seq<ChainFile>, b: seq<ChainFile>, j: nat, k: nat)
    requires j <= k <= |a| && k <= |b| && a[..k] == b[..k]
    ensures exists ls :: AllLines(a, j) == ls + AllLines(a, k) && AllLines(b, j) == ls + AllLines(b, k)
    decreases k - j
  {
    hide LinesIn, AllLines;
    if j == k {
      assert [] + AllLines(a, k) == AllLines(a, k) && [] + AllLines(b, k) == AllLines(b, k);
    } else {
      AllLinesPrefix(a, b, j + 1, k);
      var ls :| AllLines(a, j + 1) == ls + AllLines(a, k) && AllLines(b, j + 1) == ls + AllLines(b, k);
      AllStep(a, j);
      AllStep(b, j);
      assert a[j] == a[..k][j] == b[j];
      var l := LinesOf(a[j].data, a[j].start);
      Assoc(l, ls, AllLines(a, k));
      Assoc(l, ls, AllLines(b, k));
    }
  }

  /** The chain's lines are the old ones and the new record, which starts where the chain ended. */
  lemma {:induction false} GrownLines(a: FileChain, b: FileChain, r: Bytes, maxLine: nat)
    requires Whole(a, maxLine) && Grown(a, b, r) && IsRecord(r)
    ensures AllLines(b.files, 0) == AllLines(a.files, 0) + [Line(r, a.total)]
  {
    hide LinesIn, AllLines, Whole;
    var k: nat, base: nat, data: Bytes :| GrownAt(a, b, r, k, base, data);
    AllLinesPrefix(a.files, b.files, 0, k);
    var ls :| AllLines(a.files, 0) == ls + AllLines(a.files, k) && AllLines(b.files, 0) == ls + AllLines(b.files, k);
    WholeFile(a, maxLine, k);
    TextEscape.AppendLine(data, r, base);
    AllStep(b.files, k);
    NoMoreLines(b.files);
    NoMoreLines(a.files);
    LinesNone([], 0, base);
    if k < |a.files| {
      AllStep(a.files, k);
    }
    Assoc(ls, LinesOf(data, base), [Line(r, a.total)]);
    assert LinesOf(data, base) + [] == LinesOf(data, base);
    assert LinesOf(b.files[k].data, base) + [] == LinesOf(b.files[k].data, base);
  }

  lemma {:induction false} WholeFile(fc: FileChain, maxLine: nat, k: nat)
    requires Whole(fc, maxLine)
    ensures k < |fc.files| ==> var d := fc.files[k].data; d != [] && d[|d| - 1] == LF
  {}

  lemma {:induction false} WholeEmpty(fc: FileChain, maxLine: nat)
    requires Whole(fc, maxLine)
    ensures fc.Empty() ==> fc.total == 0
  {}

  lemma {:induction false} GrownKeepsFile(a: FileChain, b: FileChain, r: Bytes, k: nat, base: nat, data: Bytes, i: nat)
    requires GrownAt(a, b, r, k, base, data) && i < |a.files|
    ensures i < |b.files| && b.files[i].start == a.files[i].start
    ensures a.files[i].data <= b.files[i].data
  {
    if i < k {
      assert b.files[i] == b.files[..k][i] == a.files[..k][i] == a.files[i];
    }
  }

  lemma {:induction false} GrownFromNothing(a: FileChain, b: FileChain, r: Bytes, k: nat, base: nat, data: Bytes)
    requires GrownAt(a, b, r, k, base, data) && a.Empty() && a.total == 0
    ensures Boundary(b.files, 0)
  {
    assert AtLineStart(b.files[0].data, 0 - b.files[0].start);
  }

  /** A cursor in a chain is still between records once the chain has grown. */
  lemma {:induction false} GrownCursor(a: FileChain, b: FileChain, r: Bytes, o: nat, maxLine: nat)
    requires Whole(a, maxLine) && Grown(a, b, r) && Cursor(a, o)
    ensures Cursor(b, o)
  {
    var k: nat, base: nat, data: Bytes :| GrownAt(a, b, r, k, base, data);
    assert !b.Empty();
    WholeEmpty(a, maxLine);
    hide Whole, AtLineStart, GrownAt, Grown, Boundary;
    if a.Empty() {
      GrownFromNothing(a, b, r, k, base, data);
    } else {
      var i :| 0 <= i < |a.files| && AtLineStart(a.files[i].data, o - a.files[i].start);
      WholeFile(a, maxLine, i);
      GrownBoundary(a, b, r, k, base, data, i, o);
    }
  }

  lemma {:induction false} GrownBoundary(
    a: FileChain, b: FileChain, r: Bytes, k: nat, base: nat, data: Bytes, i: nat, o: nat)
    requires GrownAt(a, b, r, k, base, data) && i < |a.files|
    requires var d := a.files[i].data; d != [] && d[|d| - 1] == LF && AtLineStart(d, o - a.files[i].start)
    ensures Boundary(b.files, o)
  {
    GrownKeepsFile(a, b, r, k, base, data, i);
    hide GrownAt, AtLineStart;
    StillLineStart(a.files[i].data, b.files[i].data, o - a.files[i].start);
    assert AtLineStart(b.files[i].data, o - b.files[i].start);
  }

  lemma {:induction false} StillLineStart(b: Bytes, more: Bytes, p: int)
    requires AtLineStart(b, p) && b != [] && b[|b| - 1] == LF && b <= more
    ensures AtLineStart(more, p)
  {}

  /** A cursor cuts the chain's lines in two at its offset. */
  lemma {:induction false} CursorCuts(fc: FileChain, o: nat, maxLine: nat)
    requires Whole(fc, maxLine) && Cursor(fc, o)
    ensures o <= fc.total
    ensures var before, after := Before(fc.files, |fc.files|, o), After(fc.files, 0, o, maxLine);
            AllLines(fc.files, 0) == before + after && AllBelow(before, o) && AllFrom(after, o)
  {
    hide After, Before, AllLines, AllShort, LinesIn;
    AfterOffsets(fc.files, 0, o, maxLine);
    BeforeInChain(fc, |fc.files|, o);
    var before, after := Before(fc.files, |fc.files|, o), After(fc.files, 0, o, maxLine);
    if fc.Empty() {
      NoMoreLines(fc.files);
      NoFiles(fc, o);
    } else {
      BothSides(fc, o, maxLine);
      BoundaryInChain(fc, o);
    }
    assert forall i | 0 <= i < |before| :: before[i] in before;
  }

  lemma {:induction false} BoundaryInChain(fc: FileChain, o: nat)
    requires fc.Valid() && Boundary(fc.files, o)
    ensures o <= fc.total
  {
    var i :| 0 <= i < |fc.files| && AtLineStart(fc.files[i].data, o - fc.files[i].start);
    if i < |fc.files| - 1 {
      StartsOrdered(fc, i, |fc.files| - 1);
    }
  }

  /** What lies ahead of a waiting cursor grows by exactly the new record. */
  lemma {:induction false} GrownAfter(a: FileChain, b: FileChain, r: Bytes, o: nat, maxLine: nat)
    requires Whole(a, maxLine) && Whole(b, maxLine) && Grown(a, b, r) && IsRecord(r) && Cursor(a, o)
    ensures After(b.files, 0, o, maxLine) == After(a.files, 0, o, maxLine) + [Line(r, a.total)]
  {
    GrownLines(a, b, r, maxLine);
    GrownCursor(a, b, r, o, maxLine);
    hide After, Before, AllLines, Whole, Grown, Cursor, AllBelow, AllFrom, IsRecord;
    CursorCuts(a, o, maxLine);
    CursorCuts(b, o, maxLine);
    var x, y := Before(a.files, |a.files|, o), Before(b.files, |b.files|, o);
    var after := After(a.files, 0, o, maxLine);
    Assoc(x, after, [Line(r, a.total)]);
    FromMore(after, Line(r, a.total), o);
    SameCut(x, after + [Line(r, a.total)], y, After(b.files, 0, o, maxLine), o);
  }

  lemma {:induction false} FromMore(ls: seq<Line>, l: Line, o: nat)
    requires AllFrom(ls, o) && l.offset >= o
    ensures AllFrom(ls + [l], o)
  {}

  lemma {:induction false} SameCut(x: seq<Line>, x': seq<Line>, y: seq<Line>, y': seq<Line>, o: nat)
    requires x + x' == y + y'
    requires AllBelow(x, o) && AllFrom(x', o) && AllBelow(y, o) && AllFrom(y', o)
    ensures x == y && x' == y'
  {
    var s := x + x';
    assert forall i | 0 <= i < |y| :: s[i] == y[i];
    assert forall i | 0 <= i < |x| :: s[i] == x[i];
    if |x| < |s| {
      assert s[|x|] == x'[0];
      NotCutLater(s, |x|, |y|, o);
    }
    if |y| < |s| {
      assert s[|y|] == y'[0];
      NotCutLater(s, |y|, |x|, o);
    }
    assert x' == s[|x|..] && y' == s[|y|..];
    assert x == s[..|x|] && y == s[..|y|];
  }

  lemma {:induction false} NotCutLater(s: seq<Line>, k: nat, n: nat, o: nat)
    requires k < |s| && n <= |s| && s[k].offset >= o && forall i | 0 <= i < n :: s[i].offset < o
    ensures n <= k
  {}

  // ---- The page in the browser ------------------------------------------------------------

  /** The cursors of the page and the lines it shows; clearOffset is -1 until the view is cleared. */
  datatype View = View(tailOffset: nat, chainEnd: nat, topOffset: nat, clearOffset: int, shown: seq<Line>)

  function Reloaded(v: View, r: Response): View {
    View(r.tailOffset, r.tailOffset, r.firstOffset, v.clearOffset, r.lines)
  }

  function Extended(v: View, r: Response): View {
    v.(chainEnd := r.tailOffset, tailOffset := r.nextOffset, shown := v.shown + r.lines)
  }

  ghost predicate Loaded(fc: FileChain, q: Query, a: View, b: View) {
    exists r :: IsAnswer(fc, Tail, 0, a.clearOffset, q, r) && b == Reloaded(a, r)
  }

  ghost predicate Polled(fc: FileChain, q: Query, a: View, b: View) {
    exists r :: IsAnswer(fc, Forward, a.tailOffset, a.clearOffset, q, r) && b == Extended(a, r)
  }

  class Browser {
    var tailOffset: nat
    var chainEnd: nat
    var topOffset: nat
    var clearOffset: int
    var shown: seq<Line>

    constructor ()
      ensures State() == View(0, 0, 0, -1, [])
    {
      tailOffset, chainEnd, topOffset, clearOffset, shown := 0, 0, 0, -1, [];
    }

    function State(): View
      reads this
    {
      View(tailOffset, chainEnd, topOffset, clearOffset, shown)
    }

    /** Shows the last lines of the chain as the server sees it; a failed fetch leaves the cursors. */
    method LoadTail(reachable: bool, fc: FileChain, q: Query, chunkSize: nat)
      requires fc.Valid() && NoCrIn(fc.files) && 1 <= chunkSize <= q.maxLine
      modifies this
      ensures if reachable then Loaded(fc, q, old(State()), State()) else State() == old(State()).(shown := [])
      ensures reachable ==> tailOffset == chainEnd == fc.total && (shown != [] ==> topOffset == shown[0].offset)
      ensures clearOffset == old(clearOffset)
    {
      shown := [];
      if !reachable {
        return;
      }
      var data := GetLines(fc, Tail, 0, clearOffset, q, chunkSize);
      tailOffset := data.tailOffset;
      chainEnd := tailOffset;
      topOffset := data.firstOffset;
      shown := shown + data.lines;
      assert State() == Reloaded(old(State()), data);
    }

    /** One poll; a chain end that went back is a rotation, and everything is loaded anew. */
    method PollTailOnce(reachable: bool, fc: FileChain, reloaded: FileChain, q: Query, chunkSize: nat)
      requires fc.Valid() && NoCrIn(fc.files) && 1 <= chunkSize <= q.maxLine
      requires reloaded.Valid() && NoCrIn(reloaded.files)
      modifies this
      ensures
        if !reachable then State() == old(State())
        else if fc.total < old(chainEnd) then Loaded(reloaded, q, old(State()), State())
        else Polled(fc, q, old(State()), State())
      ensures reachable && fc.total >= old(chainEnd) ==>
                chainEnd == fc.total && topOffset == old(topOffset) && old(shown) <= shown
      ensures clearOffset == old(clearOffset)
    {
      if !reachable {
        return;
      }
      var data := GetLines(fc, Forward, tailOffset, clearOffset, q, chunkSize);
      if data.tailOffset < chainEnd {
        LoadTail(true, reloaded, q, chunkSize);
        return;
      }
      chainEnd := data.tailOffset;
      tailOffset := data.nextOffset;
      shown := shown + data.lines;
      assert State() == Extended(old(State()), data);
    }
  }

  // ---- Every interleaving ----------------------------------------------------------------------

  datatype Moment = Moment(world: World, view: View) {
    function Chain(m: nat): FileChain {
      ChainOf(world.disk, m)
    }
  }

  /** The disk gains a record the scanner can read, or goes through a step that drops no file. */
  ghost predicate ServerStep(a: World, b: World, m: nat, maxLine: nat) {
    || (exists r :: WriteStep(a, b, r) && |r| < maxLine)
    || (b.written == a.written && 0 !in a.disk && b.disk == a.disk[0 := []])
    || (b.written == a.written && R.RotationStep(a.disk, b.disk, m) && Present(b.disk, m, 0) == Present(a.disk, m, 0))
  }

  /** A step of the server, a poll answered from the chain as it is then, or a poll that failed. */
  ghost predicate Next(a: Moment, b: Moment, m: nat, q: Query) {
    || (b.view == a.view && ServerStep(a.world, b.world, m, q.maxLine))
    || (b.world == a.world && a.Chain(m).total >= a.view.chainEnd && Polled(a.Chain(m), q, a.view, b.view))
    || (b.world == a.world && a.Chain(m).total < a.view.chainEnd && Loaded(a.Chain(m), q, a.view, b.view))
    || b == a
  }

  /** Everything the tail has to be in: the chain in whole records, its cursor between two of them. */
  ghost predicate Following(x: Moment, m: nat, q: Query) {
    && Whole(x.Chain(m), q.maxLine)
    && Cursor(x.Chain(m), x.view.tailOffset)
    && x.view.clearOffset <= x.view.tailOffset
    && x.view.chainEnd <= x.Chain(m).total
  }

  /** What the page shows and what is still ahead of its cursor. */
  function Account(x: Moment, m: nat, q: Query): seq<Line> {
    x.view.shown + Ahead(x.Chain(m), x.view.tailOffset, q)
  }

  lemma {:induction false} HitsOne(ls: seq<Line>, l: Line, f: Bytes -> bool)
    ensures Hits(ls + [l], f) == Hits(ls, f) + Hits([l], f)
  {
    HitsConcat(ls, [l], f);
  }

  /** A write adds its record to the account, if it matches, and to nothing else. */
  lemma {:induction false} WriteFollowed(a: Moment, b: Moment, r: Bytes, m: nat, q: Query)
    requires Following(a, m, q) && WriteStep(a.world, b.world, r) && b.view == a.view
    requires Whole(b.Chain(m), q.maxLine)
    ensures Following(b, m, q)
    ensures AllLines(b.Chain(m).files, 0) == AllLines(a.Chain(m).files, 0) + [Line(r, a.Chain(m).total)]
    ensures Account(b, m, q) == Account(a, m, q) + Hits([Line(r, a.Chain(m).total)], q.accepts)
  {
    var fa, fb, o, l := a.Chain(m), b.Chain(m), a.view.tailOffset, Line(r, a.Chain(m).total);
    AppendGrows(a.world, b.world, r, m);
    assert fb.total >= fa.total;
    hide ChainOf, Whole, Cursor, Grown, R.AppendStep, AllLines, After, Hits;
    GrownCursor(fa, fb, r, o, q.maxLine);
    GrownLines(fa, fb, r, q.maxLine);
    GrownAfter(fa, fb, r, o, q.maxLine);
    HitsOne(After(fa.files, 0, o, q.maxLine), l, q.accepts);
    Assoc(a.view.shown, Ahead(fa, o, q), Hits([l], q.accepts));
  }

  /** A poll moves lines from ahead of the cursor to the page; one that shows none had none ahead. */
  lemma {:induction false} PollFollowed(a: Moment, b: Moment, m: nat, q: Query)
    requires Following(a, m, q) && b.world == a.world && Polled(a.Chain(m), q, a.view, b.view)
    ensures Following(b, m, q) && Account(b, m, q) == Account(a, m, q)
    ensures a.view.shown <= b.view.shown
    ensures b.view.shown == a.view.shown && q.count >= 1 ==> Ahead(b.Chain(m), b.view.tailOffset, q) == []
  {
    var fc, o := a.Chain(m), a.view.tailOffset;
    var r :| IsAnswer(fc, Forward, o, a.view.clearOffset, q, r) && b.view == Extended(a.view, r);
    WholeValid(fc, q.maxLine);
    hide ChainOf, Ahead, Whole, FileChain.Valid, Cursor;
    AnswerMoves(fc, o, a.view.clearOffset, q, r);
    Assoc(a.view.shown, r.lines, Ahead(fc, r.nextOffset, q));
    if b.view.shown == a.view.shown {
      assert |r.lines| == 0;
    }
  }

  lemma {:induction false} WholeValid(fc: FileChain, maxLine: nat)
    requires Whole(fc, maxLine)
    ensures fc.Valid()
  {}

  lemma {:induction false} AnswerMoves(fc: FileChain, o: nat, since: int, q: Query, r: Response)
    requires fc.Valid() && Cursor(fc, o) && since <= o && IsAnswer(fc, Forward, o, since, q, r)
    ensures Cursor(fc, r.nextOffset) && o <= r.nextOffset
    ensures Ahead(fc, o, q) == r.lines + Ahead(fc, r.nextOffset, q)
    ensures r.lines == [] && q.count >= 1 ==> Ahead(fc, r.nextOffset, q) == []
  {
    AnswerSplits(fc, o, since, q, r);
    hide Hits, After, FileChain.Valid, Boundary, Ahead;
    assert From(o, since) == o && From(r.nextOffset, since) == r.nextOffset;
  }

  /** A forward answer splits what is ahead of where it starts, a place inside a record included. */
  lemma {:induction false} AnswerSplits(fc: FileChain, o: nat, since: int, q: Query, r: Response)
    requires fc.Valid() && IsAnswer(fc, Forward, o, since, q, r)
    ensures var start, next := From(o, since), From(r.nextOffset, since);
            o <= r.nextOffset && start <= next && Ahead(fc, start, q) == r.lines + Ahead(fc, next, q)
    ensures r.lines == [] && q.count >= 1 ==> Ahead(fc, From(r.nextOffset, since), q) == []
  {
    hide Hits, After, FileChain.Valid, Boundary;
    var start := From(o, since);
    if Nothing(fc, since) {
      NothingAhead(fc, start, since, q);
    } else {
      AheadOffsets(fc, start, q);
      assert r.lines != [] ==> Ahead(fc, start, q)[|r.lines| - 1] == r.lines[|r.lines| - 1];
    }
  }

  lemma {:induction false} NothingAhead(fc: FileChain, o: nat, since: int, q: Query)
    requires fc.Valid() && Nothing(fc, since) && since <= o
    ensures Ahead(fc, o, q) == []
  {
    hide Hits, After;
    if fc.Empty() {
      NoFiles(fc, o);
    } else {
      AfterEnd(fc, o, q.maxLine);
    }
    NoHits(q, since);
  }

  /** A loaded page shows the last batch and waits at the end of the chain, with nothing ahead of it. */
  lemma {:induction false} LoadFollowed(v: View, x: Moment, m: nat, q: Query)
    requires Whole(x.Chain(m), q.maxLine) && Loaded(x.Chain(m), q, v, x.view)
    requires v.clearOffset <= x.Chain(m).total
    ensures Following(x, m, q) && Account(x, m, q) == x.view.shown
    ensures IsNewestRun(x.view.shown, Wanted(AllLines(x.Chain(m).files, 0), q, v.clearOffset), q.count, q.budget)
  {
    var fc := x.Chain(m);
    hide ChainOf, AllShort, Hits, After, Before, AllLines, Tidy;
    AtEnd(fc);
    AfterEnd(fc, fc.total, q.maxLine);
    NoHits(q, v.clearOffset);
    if Nothing(fc, v.clearOffset) {
      ShortCutIsAPage(fc, 0, v.clearOffset, q);
    }
    BeforeEnd(fc);
    assert x.view.shown + [] == x.view.shown;
  }

  lemma {:induction false} AtEnd(fc: FileChain)
    requires fc.Valid()
    ensures Cursor(fc, fc.total)
  {
    if !fc.Empty() {
      var k := |fc.files| - 1;
      assert AtLineStart(fc.files[k].data, fc.total - fc.files[k].start);
    }
  }

  // ---- Whole runs ----------------------------------------------------------------------------

  ghost predicate Short(w: World, maxLine: nat) {
    forall i | 0 <= i < |w.written| :: |w.written[i]| < maxLine
  }

  /** A chain of whole records is one, as far as the reader is concerned. */
  lemma {:induction false} HoldsWhole(w: World, lost: seq<seq<Bytes>>, kept: seq<seq<Bytes>>, m: nat, maxLine: nat)
    requires Holds(w, lost, kept, m) && Short(w, maxLine)
    ensures Whole(ChainOf(w.disk, m), maxLine)
  {
    var fc, rs := ChainOf(w.disk, m), Concat(kept);
    forall i | 0 <= i < |rs| ensures IsRecord(rs[i]) && |rs[i]| < maxLine {
      assert rs[i] == w.written[|Concat(lost)| + i];
    }
    hide Concat, Layout, AllLines, LinesIn, Present, FileOf, AllShort, FileChain.Valid, IsRecord;
    ChainLines(kept, 0, maxLine);
    ChainOfValid(w.disk, m);
    LayoutData(Files(kept), 0);
    forall i | 0 <= i < |fc.files| ensures fc.files[i].data != [] && fc.files[i].data[|fc.files[i].data| - 1] == LF {
      InGroups(kept, i);
      assert forall j | 0 <= j < |kept[i]| :: kept[i][j] in rs;
      FileLines(kept[i], 0);
    }
  }

  ghost predicate Watch(run: seq<Moment>, m: nat, q: Query) {
    run != [] && forall i | 0 < i < |run| :: Next(run[i - 1], run[i], m, q)
  }

  /** The lines the chain has gained since. */
  function Gained(a: Moment, b: Moment, m: nat): seq<Line> {
    var before, now := AllLines(a.Chain(m).files, 0), AllLines(b.Chain(m).files, 0);
    if before <= now then now[|before|..] else now
  }

  /** All that holds at one moment of a run that began at `start`. */
  ghost predicate Tracked(start: Moment, x: Moment, m: nat, q: Query) {
    && Following(x, m, q)
    && AllLines(start.Chain(m).files, 0) <= AllLines(x.Chain(m).files, 0)
    && Account(x, m, q) == start.view.shown + Hits(Gained(start, x, m), q.accepts)
  }

  /** A step of the server that appends nothing changes nothing the viewer sees. */
  lemma {:induction false} SameChain(a: World, b: World, lost: seq<seq<Bytes>>, kept: seq<seq<Bytes>>, m: nat)
    requires Holds(a, lost, kept, m) && b.written == a.written
    requires (0 !in a.disk && b.disk == a.disk[0 := []]) || Present(b.disk, m, 0) == Present(a.disk, m, 0)
    ensures Holds(b, lost, kept, m) && ChainOf(b.disk, m) == ChainOf(a.disk, m)
  {
    hide Present, Layout, Flatten;
    if 0 !in a.disk && b.disk == a.disk[0 := []] {
      CreateHolds(a, b, lost, kept, m);
    }
  }

  lemma {:induction false} TrackWrite(start: Moment, a: Moment, b: Moment, r: Bytes, m: nat, q: Query)
    requires Tracked(start, a, m, q) && WriteStep(a.world, b.world, r) && b.view == a.view
    requires Whole(b.Chain(m), q.maxLine)
    ensures Tracked(start, b, m, q)
  {
    hide Following, Whole, AllLines, Account, Hits, Moment.Chain, R.AppendStep;
    WriteFollowed(a, b, r, m, q);
    var l := Line(r, a.Chain(m).total);
    assert Gained(start, b, m) == Gained(start, a, m) + [l];
    HitsOne(Gained(start, a, m), l, q.accepts);
    Assoc(start.view.shown, Hits(Gained(start, a, m), q.accepts), Hits([l], q.accepts));
  }

  lemma {:induction false} TrackPoll(start: Moment, a: Moment, b: Moment, m: nat, q: Query)
    requires Tracked(start, a, m, q) && b.world == a.world && Polled(a.Chain(m), q, a.view, b.view)
    ensures Tracked(start, b, m, q)
  {
    hide Following, AllLines, Account, Hits, Polled;
    PollFollowed(a, b, m, q);
  }

  lemma {:induction false} TailTracks(
    run: seq<Moment>, n: nat, lost: seq<seq<Bytes>>, kept0: seq<seq<Bytes>>, m: nat, q: Query)
    returns (kept: seq<seq<Bytes>>)
    requires Watch(run, m, q) && n < |run| && Tracked(run[0], run[0], m, q)
    requires Holds(run[0].world, lost, kept0, m) && Short(run[0].world, q.maxLine)
    ensures forall i | 0 <= i <= n :: Tracked(run[0], run[i], m, q)
    ensures Holds(run[n].world, lost, kept, m) && Short(run[n].world, q.maxLine)
    decreases n
  {
    hide Tracked, Holds, Next, Short;
    kept := kept0;
    if n > 0 {
      kept := TailTracks(run, n - 1, lost, kept0, m, q);
      assert Next(run[n - 1], run[n], m, q);
      kept := TrackStep(run[0], run[n - 1], run[n], lost, kept, m, q);
    }
  }

  lemma {:induction false} TrackStep(start: Moment, a: Moment, b: Moment, lost: seq<seq<Bytes>>, kept0: seq<seq<Bytes>>, m: nat, q: Query)
    returns (kept: seq<seq<Bytes>>)
    requires Tracked(start, a, m, q) && Next(a, b, m, q)
    requires Holds(a.world, lost, kept0, m) && Short(a.world, q.maxLine)
    ensures Tracked(start, b, m, q) && Holds(b.world, lost, kept, m) && Short(b.world, q.maxLine)
  {
    hide Whole, Cursor, Account, Gained, AllLines, Hits, Polled, Loaded, R.RotationStep, R.AppendStep, Holds, Present;
    kept := kept0;
    if b != a && b.view == a.view && ServerStep(a.world, b.world, m, q.maxLine) {
      if r :| WriteStep(a.world, b.world, r) && |r| < q.maxLine {
        kept := AppendHolds(a.world, b.world, r, lost, kept0, m);
        HoldsWhole(b.world, lost, kept, m, q.maxLine);
        hide Tracked;
        TrackWrite(start, a, b, r, m, q);
      } else {
        SameChain(a.world, b.world, lost, kept0, m);
        SameTracked(start, a, b, m, q);
      }
    } else if b != a {
      TrackPoll(start, a, b, m, q);
    }
  }

  lemma {:induction false} SameTracked(start: Moment, a: Moment, b: Moment, m: nat, q: Query)
    requires Tracked(start, a, m, q) && b.view == a.view && b.Chain(m) == a.Chain(m)
    ensures Tracked(start, b, m, q)
  {
    hide Whole, Cursor, AllLines, Hits, Ahead, ChainOf;
  }

  /**
   The live tail. From a loaded page on, over every interleaving of appends, of rotation steps that
   drop no file and of polls, the page shows the last batch at first, and then every later match once
   and in order: what it shows, with what is still ahead of its cursor, is always exactly the last
   batch and the matches appended since. No poll ever takes the chain for rotated, and a poll that
   shows nothing leaves nothing behind, however many records a burst brought.
   */
  lemma {:induction false} LiveTailDeliversOnce(run: seq<Moment>, v: View, lost: seq<seq<Bytes>>, kept: seq<seq<Bytes>>, m: nat, q: Query)
    requires Watch(run, m, q) && q.count >= 1
    requires Holds(run[0].world, lost, kept, m) && Short(run[0].world, q.maxLine)
    requires Loaded(run[0].Chain(m), q, v, run[0].view) && v.clearOffset <= run[0].Chain(m).total
    ensures IsNewestRun(run[0].view.shown, Wanted(AllLines(run[0].Chain(m).files, 0), q, v.clearOffset), q.count, q.budget)
    ensures forall i | 0 <= i < |run| ::
              && run[i].view.chainEnd <= run[i].Chain(m).total
              && AllLines(run[0].Chain(m).files, 0) <= AllLines(run[i].Chain(m).files, 0)
              && run[i].view.shown + Ahead(run[i].Chain(m), run[i].view.tailOffset, q)
                 == run[0].view.shown + Hits(Gained(run[0], run[i], m), q.accepts)
    ensures var n := |run| - 1;
            n > 0 && run[n].world == run[n - 1].world && Polled(run[n].Chain(m), q, run[n - 1].view, run[n].view)
            && run[n].view.shown == run[n - 1].view.shown ==>
              run[n].view.shown == run[0].view.shown + Hits(Gained(run[0], run[n], m), q.accepts)
  {
    StartTracked(v, run[0], lost, kept, m, q);
    hide Holds, Loaded, Polled, Next, Tracked, Moment.Chain, Wanted, IsNewestRun, Ahead, Hits, Gained, Short;
    var _ := TailTracks(run, |run| - 1, lost, kept, m, q);
    forall i | 0 <= i < |run|
      ensures run[i].view.chainEnd <= run[i].Chain(m).total
      ensures AllLines(run[0].Chain(m).files, 0) <= AllLines(run[i].Chain(m).files, 0)
      ensures run[i].view.shown + Ahead(run[i].Chain(m), run[i].view.tailOffset, q)
              == run[0].view.shown + Hits(Gained(run[0], run[i], m), q.accepts)
    {
      TrackedMeans(run[0], run[i], m, q);
    }
    var n := |run| - 1;
    if n > 0 && run[n].world == run[n - 1].world && Polled(run[n].Chain(m), q, run[n - 1].view, run[n].view)
       && run[n].view.shown == run[n - 1].view.shown {
      Drained(run[0], run[n - 1], run[n], m, q);
    }
  }

  lemma {:induction false} StartTracked(v: View, x: Moment, lost: seq<seq<Bytes>>, kept: seq<seq<Bytes>>, m: nat, q: Query)
    requires Holds(x.world, lost, kept, m) && Short(x.world, q.maxLine)
    requires Loaded(x.Chain(m), q, v, x.view) && v.clearOffset <= x.Chain(m).total
    ensures Tracked(x, x, m, q)
    ensures IsNewestRun(x.view.shown, Wanted(AllLines(x.Chain(m).files, 0), q, v.clearOffset), q.count, q.budget)
  {
    HoldsWhole(x.world, lost, kept, m, q.maxLine);
    hide ChainOf, AllLines, Hits, Whole, Holds, Loaded, Ahead, Following;
    LoadFollowed(v, x, m, q);
    NoHits(q, -1);
    assert x.view.shown + [] == x.view.shown;
  }

  lemma {:induction false} TrackedMeans(start: Moment, x: Moment, m: nat, q: Query)
    requires Tracked(start, x, m, q)
    ensures x.view.chainEnd <= x.Chain(m).total
    ensures AllLines(start.Chain(m).files, 0) <= AllLines(x.Chain(m).files, 0)
    ensures x.view.shown + Ahead(x.Chain(m), x.view.tailOffset, q) == start.view.shown + Hits(Gained(start, x, m), q.accepts)
  {
    hide Ahead, Hits, Gained, AllLines, ChainOf, Whole, Cursor;
  }

  lemma {:induction false} Drained(start: Moment, a: Moment, b: Moment, m: nat, q: Query)
    requires Tracked(start, a, m, q) && Tracked(start, b, m, q) && q.count >= 1
    requires b.world == a.world && Polled(b.Chain(m), q, a.view, b.view) && b.view.shown == a.view.shown
    ensures b.view.shown == start.view.shown + Hits(Gained(start, b, m), q.accepts)
  {
    hide Ahead, Hits, Gained, AllLines, ChainOf, Whole, Cursor, Polled;
    PollFollowed(a, b, m, q);
    assert b.view.shown + [] == b.view.shown;
  }
}
