/**
 Reading a page of matching lines backward from a logical offset, in chunks, newest line first,
 with the head of a line still unread carried from one chunk to the one before it.
 */
module BackwardRead {
  import opened Bytes
  import opened Lines
  import opened Chain
  import opened ForwardRead

  /** The lines a backward read may return: not over-long, not before since, trimmed, matching. */
  function Wanted(ls: seq<Line>, q: Query, since: int): seq<Line> {
    Hits(Tidy(ls, q.maxLine, since), q.accepts)
  }

  /**
   What a backward page is: the greedy newest run of the wanted lines of the simple reading of
   everything before o, its first offset the cursor for paging further back.
   */
  ghost predicate IsBackwardPage(fc: FileChain, o: nat, q: Query, since: int, page: Page) {
    && IsNewestRun(page.lines, Wanted(Before(fc.files, |fc.files|, o), q, since), q.count, q.budget)
    && page.firstOffset == (if page.lines == [] then o else page.lines[0].offset)
    && page.nextOffset == o
  }

  function Reverse(ls: seq<Line>): (r: seq<Line>)
    ensures |r| == |ls|
    ensures forall i | 0 <= i < |ls| :: r[i] == ls[|ls| - 1 - i]
  {
    if ls == [] then [] else [ls[|ls| - 1]] + Reverse(ls[..|ls| - 1])
  }

  lemma {:induction false} WantedConcat(a: seq<Line>, b: seq<Line>, q: Query, since: int)
    ensures Wanted(a + b, q, since) == Wanted(a, q, since) + Wanted(b, q, since)
  {
    TidyConcat(a, b, q.maxLine, since);
    HitsConcat(Tidy(a, q.maxLine, since), Tidy(b, q.maxLine, since), q.accepts);
  }

  // ---- One line ---------------------------------------------------------------

  /** What a backward walk has collected, newest line first, and whether it has to stop. */
  datatype Walk = Walk(collected: seq<Line>, bytes: nat, stop: bool)

  /** Where a backward walk stands: the lines it has still to take, from the last one, are `todo`. */
  ghost predicate Walking(q: Query, since: int, ms: seq<Line>, w: Walk, todo: seq<Line>) {
    var left := Wanted(todo, q, since);
    && ms == left + Reverse(w.collected)
    && w.bytes == Size(Reverse(w.collected))
    && |w.collected| <= q.count
    && (|w.collected| <= 1 || w.bytes <= q.budget)
    && (w.stop && left != [] ==> w.collected != [] && w.bytes + |left[|left| - 1].text| > q.budget)
  }

  /** The one entry a line contributes, if it is wanted. */
  function Entry(l: Line, q: Query, since: int): seq<Line> {
    var text := TrimCr(l.text);
    if |l.text| <= q.maxLine && !(since >= 0 && l.offset < since) && text != [] && q.accepts(text)
    then [Line(text, l.offset)] else []
  }

  lemma {:induction false} WantedLast(todo: seq<Line>, l: Line, q: Query, since: int)
    ensures Wanted(todo + [l], q, since) == Wanted(todo, q, since) + Entry(l, q, since)
  {
    hide TrimCr;
    WantedConcat(todo, [l], q, since);
    assert [l][1..] == [] && Tidy([], q.maxLine, since) == [] && Hits([], q.accepts) == [];
    var kept := if |l.text| <= q.maxLine && !(since >= 0 && l.offset < since)
                then [Line(TrimCr(l.text), l.offset)] else [];
    assert Tidy([l], q.maxLine, since) == kept + Tidy([l][1..], q.maxLine, since) == kept;
    assert kept != [] ==> kept[1..] == [];
  }

  /** A line starting before since ends the walk: everything older starts before since too. */
  lemma {:induction false} StopAtSince(q: Query, since: int, ms: seq<Line>, w: Walk, todo: seq<Line>)
    requires Walking(q, since, ms, w, todo)
    requires since >= 0 && forall l <- todo :: l.offset < since
    ensures Walking(q, since, ms, w.(stop := true), todo)
  {
    TidyNone(todo, q.maxLine, since);
  }

  lemma {:induction false} PassOver(q: Query, since: int, ms: seq<Line>, w: Walk, todo: seq<Line>, l: Line)
    requires Walking(q, since, ms, w, todo + [l])
    requires Entry(l, q, since) == [] && !w.stop
    ensures Walking(q, since, ms, w, todo)
  {
    hide Wanted, Entry, Reverse, Size;
    WantedLast(todo, l, q, since);
    assert Wanted(todo + [l], q, since) == Wanted(todo, q, since);
  }

  lemma {:induction false} OverBudget(q: Query, since: int, ms: seq<Line>, w: Walk, todo: seq<Line>, l: Line)
    requires Walking(q, since, ms, w, todo + [l])
    requires Entry(l, q, since) != [] && w.collected != [] && w.bytes + |Entry(l, q, since)[0].text| > q.budget
    ensures Walking(q, since, ms, w.(stop := true), todo + [l])
  {
    WantedLast(todo, l, q, since);
  }

  lemma {:induction false} Collect(q: Query, since: int, ms: seq<Line>, w: Walk, todo: seq<Line>, l: Line)
    requires Walking(q, since, ms, w, todo + [l])
    requires Entry(l, q, since) != [] && !w.stop && |w.collected| < q.count
    requires w.collected == [] || w.bytes + |Entry(l, q, since)[0].text| <= q.budget
    ensures Walking(q, since, ms, Walk(w.collected + Entry(l, q, since), w.bytes + |Entry(l, q, since)[0].text|, false), todo)
  {
    hide Wanted, Entry, Reverse, Size;
    WantedLast(todo, l, q, since);
    OneEntry(l, q, since);
    var e := Entry(l, q, since)[0];
    ReverseSnoc(w.collected, e);
    SizeCons(e, Reverse(w.collected));
    Assoc(Wanted(todo, q, since), [e], Reverse(w.collected));
  }

  lemma {:induction false} OneEntry(l: Line, q: Query, since: int)
    ensures Entry(l, q, since) != [] ==> Entry(l, q, since) == [Entry(l, q, since)[0]]
  {}

  lemma {:induction false} ReverseSnoc(ls: seq<Line>, e: Line)
    ensures Reverse(ls + [e]) == [e] + Reverse(ls)
  {
    assert (ls + [e])[..|ls|] == ls;
  }

  lemma {:induction false} SizeCons(e: Line, ls: seq<Line>)
    ensures Size([e] + ls) == |e.text| + Size(ls)
  {
    assert ([e] + ls)[1..] == ls;
  }

  // ---- The carried fragment -------------------------------------------------------

  /** carry holds the already-read tail of an unfinished line, or records that it is over-long. */
  ghost predicate Carries(carry: Bytes, carryTooLong: bool, tail: Bytes, maxLine: nat) {
    if carryTooLong then carry == [] && |tail| > maxLine else carry == tail && |tail| <= maxLine
  }

  /**
   Takes one line, seg being its head and, with joinCarry, the carried fragment its tail. `line` is
   the whole line; returns the walk after it and whether the carried fragment was used up.
   */
  method Take(q: Query, since: int, w0: Walk, seg: Bytes, lineStart: nat, joinCarry: bool,
              carry0: Bytes, carryTooLong0: bool,
              ghost ms: seq<Line>, ghost todo: seq<Line>, ghost line: Line, ghost tail: Bytes)
    returns (w: Walk, carry: Bytes, carryTooLong: bool)
    requires |seg| <= q.maxLine && !w0.stop && |w0.collected| < q.count
    requires Carries(carry0, carryTooLong0, tail, q.maxLine)
    requires line == Line(if joinCarry then seg + tail else seg, lineStart)
    requires forall l <- todo :: l.offset <= lineStart
    requires Walking(q, since, ms, w0, todo + [line])
    ensures w.stop ==> Walking(q, since, ms, w, todo + [line])
    ensures |w.collected| <= q.count
    ensures !w.stop ==>
              && Walking(q, since, ms, w, todo)
              && if joinCarry then carry == [] && !carryTooLong else carry == carry0 && carryTooLong == carryTooLong0
  {
    hide Wanted, Walking, Reverse, TrimCr;
    w, carry, carryTooLong := w0, carry0, carryTooLong0;
    if since >= 0 && lineStart < since {
      StopAtSince(q, since, ms, w, todo + [line]);
      w := w.(stop := true);
      return;
    }

    var raw, dropped := seg, false;
    if joinCarry {
      if carryTooLong || |seg| + |carry| > q.maxLine {
        dropped := true;
      } else if |carry| > 0 {
        raw := seg + carry;
      }
      carry, carryTooLong := [], false;
    }
    if dropped {
      PassOver(q, since, ms, w, todo, line);
      return;
    }

    assert raw == line.text;
    raw := TrimCr(raw);
    if |raw| > 0 && q.accepts(raw) {
      if |w.collected| > 0 && w.bytes + |raw| > q.budget {
        OverBudget(q, since, ms, w, todo, line);
        w := w.(stop := true);
        return;
      }
      Collect(q, since, ms, w, todo, line);
      w := Walk(w.collected + [Line(raw, lineStart)], w.bytes + |raw|, false);
    } else {
      PassOver(q, since, ms, w, todo, line);
    }
  }

  // ---- The lines still to take ------------------------------------------------------

  /** Every line of the files before file k. */
  ghost function Earlier(files: seq<ChainFile>, k: nat): seq<Line>
    requires k <= |files|
  {
    if k == 0 then [] else Earlier(files, k - 1) + LinesOf(files[k - 1].data, files[k - 1].start)
  }

  /** The same and the pieces of file k up to le, the end of the line being put together. */
  ghost function Todo(files: seq<ChainFile>, k: nat, le: nat): seq<Line>
    requires k < |files| && le <= |files[k].data|
  {
    Earlier(files, k) + SplitIn(files[k].data, 0, le, files[k].start)
  }

  lemma {:induction false} SplitNoLf(b: Bytes, lo: nat, hi: nat, base: nat)
    requires lo <= hi <= |b| && forall k | lo <= k < hi :: b[k] != LF
    ensures SplitIn(b, lo, hi, base) == [Line(b[lo..hi], base + lo)]
  {
    hide NextLf;
    assert NextLf(b, lo, hi) == hi;
  }

  /** The last piece, when the LF before it is at i. */
  lemma {:induction false} TodoLast(files: seq<ChainFile>, k: nat, i: nat, le: nat)
    requires k < |files| && i < le <= |files[k].data|
    requires files[k].data[i] == LF && forall j | i < j < le :: files[k].data[j] != LF
    ensures Todo(files, k, le) == Todo(files, k, i) + [Line(files[k].data[i + 1..le], files[k].start + i + 1)]
  {
    hide SplitIn, Earlier;
    SplitAt(files[k].data, 0, i, le, files[k].start);
    SplitNoLf(files[k].data, i + 1, le, files[k].start);
  }

  /** The last piece of a file is its first line. */
  lemma {:induction false} TodoFirst(files: seq<ChainFile>, k: nat, le: nat)
    requires k < |files| && le <= |files[k].data|
    requires forall j | 0 <= j < le :: files[k].data[j] != LF
    ensures Todo(files, k, le) == Earlier(files, k) + [Line(files[k].data[..le], files[k].start)]
  {
    hide SplitIn, Earlier;
    SplitNoLf(files[k].data, 0, le, files[k].start);
    assert files[k].data[0..le] == files[k].data[..le];
  }

  lemma {:induction false} EarlierOffsets(fc: FileChain, k: nat)
    requires fc.Valid() && k < |fc.files|
    ensures forall l <- Earlier(fc.files, k) :: l.offset <= fc.files[k].start
  {
    if k > 0 {
      EarlierOffsets(fc, k - 1);
      var cf := fc.files[k - 1];
      LinesOffsets(cf.data, 0, |cf.data|, cf.start);
    }
  }

  lemma {:induction false} SplitOffsets(b: Bytes, lo: nat, hi: nat, base: nat)
    requires lo <= hi <= |b|
    ensures forall l <- SplitIn(b, lo, hi, base) :: l.offset <= base + hi
    decreases hi - lo
  {
    var i := NextLf(b, lo, hi);
    if i < hi {
      SplitOffsets(b, i + 1, hi, base);
    }
  }

  lemma {:induction false} TodoOffsets(fc: FileChain, k: nat, le: nat)
    requires fc.Valid() && k < |fc.files| && le <= |fc.files[k].data|
    ensures forall l <- Todo(fc.files, k, le) :: l.offset <= fc.files[k].start + le
  {
    hide SplitIn, Earlier;
    EarlierOffsets(fc, k);
    SplitOffsets(fc.files[k].data, 0, le, fc.files[k].start);
  }

  /** Coming to the end of a file: its pieces stand for its lines. */
  lemma {:induction false} TodoFile(fc: FileChain, k: nat, q: Query, since: int)
    requires fc.Valid() && k < |fc.files|
    ensures Wanted(Earlier(fc.files, k + 1), q, since) == Wanted(Todo(fc.files, k, fc.files[k].size), q, since)
  {
    hide SplitIn, LinesIn, Hits, Tidy;
    var cf := fc.files[k];
    WantedConcat(Earlier(fc.files, k), SplitIn(cf.data, 0, cf.size, cf.start), q, since);
    WantedConcat(Earlier(fc.files, k), LinesOf(cf.data, cf.start), q, since);
    SplitHits(cf.data, 0, cf.size, cf.start, q.maxLine, since, q.accepts);
  }

  // ---- Chunks -------------------------------------------------------------------------

  /** The bytes of the unfinished line from `from` to its end le are what the carried fragment holds. */
  ghost predicate Held(data: Bytes, from: nat, le: nat, carry: Bytes, carryTooLong: bool, maxLine: nat) {
    && from <= le <= |data|
    && (forall j | from <= j < le :: data[j] != LF)
    && Carries(carry, carryTooLong, data[from..le], maxLine)
  }

  /** Takes the line whose head is data[from..upTo] and whose tail is the carried fragment. */
  method TakeLine(fc: FileChain, k: nat, q: Query, since: int, w0: Walk, seg: Bytes, from: nat, joinCarry: bool,
                  carry0: Bytes, carryTooLong0: bool, ghost upTo: nat, ghost le: nat,
                  ghost ms: seq<Line>, ghost todo: seq<Line>)
    returns (w: Walk, carry: Bytes, carryTooLong: bool)
    requires fc.Valid() && k < |fc.files| && from <= upTo <= le <= |fc.files[k].data|
    requires seg == fc.files[k].data[from..upTo] && |seg| <= q.maxLine
    requires Held(fc.files[k].data, upTo, le, carry0, carryTooLong0, q.maxLine)
    requires !joinCarry ==> upTo == le
    requires !w0.stop && |w0.collected| < q.count
    requires forall l <- todo :: l.offset <= fc.files[k].start + from
    requires Walking(q, since, ms, w0, todo + [Line(fc.files[k].data[from..le], fc.files[k].start + from)])
    ensures |w.collected| <= q.count
    ensures if w.stop
            then Walking(q, since, ms, w, todo + [Line(fc.files[k].data[from..le], fc.files[k].start + from)])
            else Walking(q, since, ms, w, todo) && carry == [] && !carryTooLong
  {
    hide Walking, FileChain.Valid;
    ghost var data := fc.files[k].data;
    assert data[from..upTo] + data[upTo..le] == data[from..le];
    w, carry, carryTooLong :=
      Take(q, since, w0, seg, fc.files[k].start + from, joinCarry, carry0, carryTooLong0,
           ms, todo, Line(data[from..le], fc.files[k].start + from), data[upTo..le]);
  }

  /** Puts the piece before the carried fragment in front of it, unless that makes it over-long. */
  method CarryOver(ghost data: Bytes, ghost from: nat, ghost at: nat, ghost le: nat, piece: Bytes,
                   carry0: Bytes, carryTooLong0: bool, maxLine: nat)
    returns (carry: Bytes, carryTooLong: bool)
    requires from <= at <= le <= |data| && piece == data[from..at] && LF !in piece
    requires Held(data, at, le, carry0, carryTooLong0, maxLine)
    ensures Held(data, from, le, carry, carryTooLong, maxLine)
  {
    carry, carryTooLong := carry0, carryTooLong0;
    assert data[from..at] + data[at..le] == data[from..le];
    assert forall j | from <= j < at :: data[j] == piece[j - from];
    if carryTooLong || |carry| + |piece| > maxLine {
      carry, carryTooLong := [], true;
    } else if |piece| > 0 {
      carry := piece + carry;
    }
  }

  lemma {:induction false} SliceOfSlice(data: Bytes, a: nat, b: nat, lo: nat, hi: nat)
    requires lo <= hi && a + hi <= b <= |data|
    ensures data[a..b][lo..hi] == data[a + lo..a + hi]
  {
    forall j | 0 <= j < hi - lo ensures data[a..b][lo..hi][j] == data[a + lo..a + hi][j] {
      assert data[a..b][lo + j] == data[a + (lo + j)];
    }
  }

  ghost predicate NoLfAfter(data: Bytes, i: int, end: int) {
    forall j | 0 <= j < |data| && i < j < end :: data[j] != LF
  }

  /** Takes the piece after the LF at i of a chunk. */
  method TakePiece(fc: FileChain, k: nat, chunkStart: nat, readEnd: nat, i: nat, end: nat, q: Query, since: int, w0: Walk,
                   buf: Bytes, carry0: Bytes, carryTooLong0: bool, ghost le0: nat, ghost ms: seq<Line>)
    returns (w: Walk, carry: Bytes, carryTooLong: bool, ghost le: nat, ghost todo: seq<Line>)
    requires fc.Valid() && k < |fc.files|
    requires chunkStart < readEnd <= |fc.files[k].data| && buf == fc.files[k].data[chunkStart..readEnd]
    requires i < end <= |buf| <= q.maxLine && buf[i] == LF && NoLfAfter(fc.files[k].data, chunkStart + i, chunkStart + end)
    requires Held(fc.files[k].data, chunkStart + end, le0, carry0, carryTooLong0, q.maxLine)
    requires end < |buf| ==> le0 == chunkStart + end
    requires !w0.stop && |w0.collected| < q.count
    requires Walking(q, since, ms, w0, Todo(fc.files, k, le0))
    ensures Walking(q, since, ms, w, todo) && |w.collected| <= q.count
    ensures le == chunkStart + i
    ensures !w.stop ==> todo == Todo(fc.files, k, le) && Held(fc.files[k].data, le, le, carry, carryTooLong, q.maxLine)
  {
    hide Walking, Todo;
    SliceOfSlice(fc.files[k].data, chunkStart, readEnd, i + 1, end);
    TodoLast(fc.files, k, chunkStart + i, le0);
    TodoOffsets(fc, k, chunkStart + i);
    w, carry, carryTooLong :=
      TakeLine(fc, k, q, since, w0, buf[i + 1..end], chunkStart + i + 1, end == |buf|,
               carry0, carryTooLong0, chunkStart + end, le0, ms, Todo(fc.files, k, chunkStart + i));
    le := chunkStart + i;
    todo := if w.stop then Todo(fc.files, k, le0) else Todo(fc.files, k, le);
  }

  /** Takes the first line of a file, whose head `piece` is the file's first bytes. */
  method TakeFirst(fc: FileChain, k: nat, q: Query, since: int, w0: Walk, piece: Bytes, joinCarry: bool,
                   carry0: Bytes, carryTooLong0: bool, ghost le: nat, ghost ms: seq<Line>)
    returns (w: Walk, carry: Bytes, carryTooLong: bool, ghost todo: seq<Line>)
    requires fc.Valid() && k < |fc.files| && |piece| <= |fc.files[k].data| && |piece| <= q.maxLine
    requires piece == fc.files[k].data[0..|piece|] && NoLfAfter(fc.files[k].data, -1, |piece|)
    requires Held(fc.files[k].data, |piece|, le, carry0, carryTooLong0, q.maxLine)
    requires !joinCarry ==> le == |piece|
    requires !w0.stop && |w0.collected| < q.count
    requires Walking(q, since, ms, w0, Todo(fc.files, k, le))
    ensures Walking(q, since, ms, w, todo) && |w.collected| <= q.count
    ensures !w.stop ==> todo == Earlier(fc.files, k)
  {
    hide Walking, Todo, Earlier;
    TodoFirst(fc.files, k, le);
    EarlierOffsets(fc, k);
    w, carry, carryTooLong :=
      TakeLine(fc, k, q, since, w0, piece, 0, joinCarry, carry0, carryTooLong0, |piece|, le, ms, Earlier(fc.files, k));
    todo := if w.stop then Todo(fc.files, k, le) else Earlier(fc.files, k);
  }

  /** Walks one chunk right to left; without a stop, the piece left over becomes the carried fragment. */
  method WalkChunk(fc: FileChain, k: nat, chunkStart: nat, readEnd: nat, q: Query, since: int, w0: Walk,
                   carry0: Bytes, carryTooLong0: bool, ghost le0: nat, ghost ms: seq<Line>)
    returns (w: Walk, carry: Bytes, carryTooLong: bool, ghost le: nat, ghost todo: seq<Line>)
    requires fc.Valid() && k < |fc.files|
    requires chunkStart < readEnd <= le0 <= |fc.files[k].data| && readEnd - chunkStart <= q.maxLine
    requires Held(fc.files[k].data, readEnd, le0, carry0, carryTooLong0, q.maxLine)
    requires !w0.stop && |w0.collected| < q.count
    requires Walking(q, since, ms, w0, Todo(fc.files, k, le0))
    ensures Walking(q, since, ms, w, todo)
    ensures |w.collected| <= q.count
    ensures !w.stop && |w.collected| < q.count ==>
              if chunkStart == 0 then todo == Earlier(fc.files, k) else
                && chunkStart <= le <= |fc.files[k].data|
                && Held(fc.files[k].data, chunkStart, le, carry, carryTooLong, q.maxLine)
                && todo == Todo(fc.files, k, le)
  {
    hide Walking, FileChain.Valid, Todo, Earlier, Held;
    var data := fc.files[k].data;
    var buf := data[chunkStart..readEnd];
    w, carry, carryTooLong := w0, carry0, carryTooLong0;
    le, todo := le0, Todo(fc.files, k, le0);

    // buf[i + 1..end] is the part of the open line seen so far in this chunk; with end at |buf|, carry continues it.
    var end := |buf|;
    var i := end - 1;
    while i >= 0 && !w.stop && |w.collected| < q.count
      invariant -1 <= i && end <= |buf| && (!w.stop ==> i < end)
      invariant chunkStart + end <= le <= |data| && (end < |buf| ==> le == chunkStart + end)
      invariant Walking(q, since, ms, w, todo) && |w.collected| <= q.count
      invariant !w.stop ==> Held(data, chunkStart + end, le, carry, carryTooLong, q.maxLine)
      invariant !w.stop ==> todo == Todo(fc.files, k, le) && NoLfAfter(data, chunkStart + i, chunkStart + end)
    {
      if buf[i] == LF {
        w, carry, carryTooLong, le, todo :=
          TakePiece(fc, k, chunkStart, readEnd, i, end, q, since, w, buf, carry, carryTooLong, le, ms);
        end := i;
      }
      i := i - 1;
    }
    if w.stop || |w.collected| >= q.count {
      return;
    }

    SliceOfSlice(data, chunkStart, readEnd, 0, end);
    assert buf[..end] == buf[0..end];
    if chunkStart == 0 {
      // Nothing of this file lies further back: what is left is its first line, whole.
      w, carry, carryTooLong, todo := TakeFirst(fc, k, q, since, w, buf[..end], end == |buf|, carry, carryTooLong, le, ms);
    } else {
      carry, carryTooLong := CarryOver(data, chunkStart, chunkStart + end, le, buf[..end], carry, carryTooLong, q.maxLine);
    }
  }

  // ---- Files and the whole read ---------------------------------------------------------

  /** Walks one file from the end of its first physOffset bytes, chunk by chunk. */
  method WalkFile(fc: FileChain, k: nat, physOffset: nat, q: Query, since: int, chunkSize: nat, w0: Walk, ghost ms: seq<Line>)
    returns (w: Walk, ghost todo: seq<Line>)
    requires fc.Valid() && k < |fc.files| && 0 < physOffset <= fc.files[k].size
    requires 1 <= chunkSize <= q.maxLine
    requires !w0.stop && |w0.collected| < q.count
    requires Walking(q, since, ms, w0, Todo(fc.files, k, physOffset))
    ensures Walking(q, since, ms, w, todo)
    ensures |w.collected| <= q.count
    ensures !w.stop && |w.collected| < q.count ==> todo == Earlier(fc.files, k)
  {
    hide Walking, Todo, Earlier;
    var carry: Bytes, carryTooLong := [], false;
    ghost var le: nat := physOffset;
    w, todo := w0, Todo(fc.files, k, physOffset);
    assert Held(fc.files[k].data, physOffset, le, carry, carryTooLong, q.maxLine);

    hide Held, FileChain.Valid;
    var readEnd := physOffset;
    while readEnd > 0 && !w.stop && |w.collected| < q.count
      invariant 0 < readEnd <= le <= |fc.files[k].data|
      invariant Walking(q, since, ms, w, todo) && todo == Todo(fc.files, k, le)
      invariant !w.stop && |w.collected| < q.count
      invariant Held(fc.files[k].data, readEnd, le, carry, carryTooLong, q.maxLine)
    {
      var chunkStart := if readEnd < chunkSize then 0 else readEnd - chunkSize;
      w, carry, carryTooLong, le, todo :=
        WalkChunk(fc, k, chunkStart, readEnd, q, since, w, carry, carryTooLong, le, ms);
      if w.stop || |w.collected| >= q.count || chunkStart == 0 {
        break;
      }
      readEnd := chunkStart;
    }
  }

  lemma {:induction false} BeforeSkips(files: seq<ChainFile>, k: nat, n: nat, o: nat)
    requires k <= n <= |files| && forall i | k <= i < n :: o <= files[i].start
    ensures Before(files, n, o) == Before(files, k, o)
  {
    if k < n {
      BeforeSkips(files, k, n - 1, o);
    }
  }

  lemma {:induction false} BeforeIsEarlier(files: seq<ChainFile>, k: nat, o: nat)
    requires k <= |files| && forall i | 0 <= i < k :: |files[i].data| > 0 && files[i].start + |files[i].data| <= o
    ensures Before(files, k, o) == Earlier(files, k)
  {
    hide LinesOf;
    if k > 0 {
      BeforeIsEarlier(files, k - 1, o);
    }
  }

  /** The simple reading before o, as the walk meets it: from place p of file k. */
  lemma {:induction false} BeforeIsTodo(fc: FileChain, o: nat, k: nat, p: nat, q: Query, since: int)
    requires fc.Valid() && k < |fc.files| && 0 < p <= fc.files[k].size
    requires o == fc.files[k].start + p || (o >= fc.total && k == |fc.files| - 1 && p == fc.files[k].size)
    ensures Wanted(Before(fc.files, |fc.files|, o), q, since) == Wanted(Todo(fc.files, k, p), q, since)
  {
    var files, cf := fc.files, fc.files[k];
    forall i | k < i < |files| ensures o <= files[i].start {
      StartsOrdered(fc, k, i);
    }
    forall i | 0 <= i < k ensures files[i].start + |files[i].data| <= o {
      StartsOrdered(fc, i, k);
    }
    BeforeSkips(files, k + 1, |files|, o);
    BeforeIsEarlier(files, k, o);
    UpToPlace(cf, o, p);
    hide SplitIn, LinesIn, Hits, Tidy, Earlier, FileBefore, Wanted, FileChain.Valid;
    assert Before(files, k + 1, o) == Earlier(files, k) + LinesIn(cf.data, 0, p, cf.start);
    WantedConcat(Earlier(files, k), SplitIn(cf.data, 0, p, cf.start), q, since);
    WantedConcat(Earlier(files, k), LinesIn(cf.data, 0, p, cf.start), q, since);
    SplitWanted(cf.data, p, cf.start, q, since);
  }

  lemma {:induction false} UpToPlace(cf: ChainFile, o: nat, p: nat)
    requires 0 < p <= |cf.data| && (o == cf.start + p || (o >= cf.start + |cf.data| && p == |cf.data|))
    ensures FileBefore(cf, o) == LinesIn(cf.data, 0, p, cf.start)
  {}

  lemma {:induction false} SplitWanted(data: Bytes, p: nat, base: nat, q: Query, since: int)
    requires p <= |data|
    ensures Wanted(SplitIn(data, 0, p, base), q, since) == Wanted(LinesIn(data, 0, p, base), q, since)
  {
    SplitHits(data, 0, p, base, q.maxLine, since, q.accepts);
  }

  lemma {:induction false} StartWalking(q: Query, since: int, todo: seq<Line>)
    ensures Walking(q, since, Wanted(todo, q, since), Walk([], 0, false), todo)
  {}

  lemma {:induction false} SameWanted(q: Query, since: int, ms: seq<Line>, w: Walk, todo: seq<Line>, todo': seq<Line>)
    requires Walking(q, since, ms, w, todo) && Wanted(todo, q, since) == Wanted(todo', q, since)
    ensures Walking(q, since, ms, w, todo')
  {}

  lemma {:induction false} NothingBeforeFirst(files: seq<ChainFile>, o: nat)
    ensures Before(files, 0, o) == []
  {}

  lemma {:induction false} NothingWanted(q: Query, since: int)
    ensures Wanted([], q, since) == []
  {}

  lemma {:induction false} NewestPart(left: seq<Line>, r: seq<Line>)
    ensures var ms := left + r;
            ms[|ms| - |r|..] == r && (left != [] ==> ms[|ms| - |r| - 1] == left[|left| - 1])
  {}

  /** When a walk may end, what it has collected is a page; it never holds more than count lines. */
  lemma {:induction false} FinishWalk(fc: FileChain, o: nat, q: Query, since: int, ms: seq<Line>, w: Walk, todo: seq<Line>, page: Page)
    requires ms == Wanted(Before(fc.files, |fc.files|, o), q, since)
    requires Walking(q, since, ms, w, todo)
    requires |w.collected| == q.count || w.stop || todo == []
    requires page == var r := Reverse(w.collected); if r == [] then Page([], o, o) else Page(r, r[0].offset, o)
    ensures IsBackwardPage(fc, o, q, since, page)
  {
    NothingWanted(q, since);
    hide Before, Reverse, Wanted, Size;
    var r, left := Reverse(w.collected), Wanted(todo, q, since);
    NewestPart(left, r);
  }

  lemma {:induction false} BeforeStep(files: seq<ChainFile>, n: nat, o: nat)
    requires 0 < n <= |files|
    ensures Before(files, n, o) == Before(files, n - 1, o) + FileBefore(files[n - 1], o)
  {
    hide FileBefore;
  }

  lemma {:induction false} InFile(cf: ChainFile, o: nat)
    ensures forall l <- FileBefore(cf, o) :: l.offset < o && l.offset < cf.start + |cf.data|
  {
    hide LinesIn;
    if o > cf.start {
      LinesOffsets(cf.data, 0, if o - cf.start >= |cf.data| then |cf.data| else o - cf.start, cf.start);
    }
  }

  lemma {:induction false} BeforeInChain(fc: FileChain, n: nat, o: nat)
    requires fc.Valid() && n <= |fc.files|
    ensures forall l <- Before(fc.files, n, o) :: l.offset < o && l.offset < fc.total
  {
    if n > 0 {
      var cf := fc.files[n - 1];
      PlaceInChain(fc, n - 1, |cf.data|);
      hide LinesIn, FileBefore, FileChain.Valid, Before, Boundary, AtLineStart;
      BeforeInChain(fc, n - 1, o);
      BeforeStep(fc.files, n, o);
      InFile(cf, o);
      InConcat(Before(fc.files, n - 1, o), FileBefore(cf, o));
    }
  }

  /** Nothing before the start, and nothing before a floor at or past the offset. */
  lemma {:induction false} NothingBefore(fc: FileChain, o: nat, q: Query, since: int)
    requires fc.Valid()
    requires fc.Empty() || q.count == 0 || o == 0 || (since >= 0 && o <= since)
    ensures IsBackwardPage(fc, o, q, since, Page([], o, o))
  {
    NothingWanted(q, since);
    var n := |fc.files|;
    if q.count > 0 && !fc.Empty() {
      if o == 0 {
        BeforeSkips(fc.files, 0, n, 0);
      } else {
        BeforeInChain(fc, n, o);
        hide Before;
        TidyNone(Before(fc.files, n, o), q.maxLine, since);
      }
    }
    NothingBeforeFirst(fc.files, o);
    hide Before, Tidy, Hits;
  }

  lemma {:induction false} EarlierStep(fc: FileChain, k: nat, q: Query, since: int, ms: seq<Line>, w: Walk, todo: seq<Line>)
    requires fc.Valid() && k <= |fc.files|
    requires Walking(q, since, ms, w, todo) && todo == Earlier(fc.files, k)
    ensures if k == 0 then todo == [] else Walking(q, since, ms, w, Todo(fc.files, k - 1, fc.files[k - 1].size))
  {
    if k > 0 {
      hide Todo, Earlier, Wanted, Walking;
      TodoFile(fc, k - 1, q, since);
      SameWanted(q, since, ms, w, todo, Todo(fc.files, k - 1, fc.files[k - 1].size));
    }
  }

  /** Reads up to count matching lines that end just before logicalOffset, across files. */
  method ReadBackward(fc: FileChain, logicalOffset: nat, q: Query, since: int, chunkSize: nat) returns (page: Page)
    requires fc.Valid() && 1 <= chunkSize <= q.maxLine
    ensures IsBackwardPage(fc, logicalOffset, q, since, page)
  {
    hide Wanted, Before, Todo, Earlier, Walking, IsBackwardPage;
    if fc.Empty() || q.count == 0 || logicalOffset == 0 || (since >= 0 && logicalOffset <= since) {
      NothingBefore(fc, logicalOffset, q, since);
      return Page([], logicalOffset, logicalOffset);
    }

    var fileIdx: int, physOffset: nat := fc.FileAt(logicalOffset);
    if physOffset == 0 && fileIdx > 0 {
      fileIdx := fileIdx - 1;
      physOffset := fc.files[fileIdx].size;
    }

    var w := Walk([], 0, false);
    ghost var todo := Todo(fc.files, fileIdx, physOffset);
    ghost var ms := Wanted(todo, q, since);
    BeforeIsTodo(fc, logicalOffset, fileIdx, physOffset, q, since);
    StartWalking(q, since, todo);

    while fileIdx >= 0 && !w.stop && |w.collected| < q.count
      invariant -1 <= fileIdx < |fc.files|
      invariant Walking(q, since, ms, w, todo) && |w.collected| <= q.count
      invariant !w.stop && |w.collected| < q.count ==>
                  if fileIdx < 0 then todo == []
                  else 0 < physOffset <= fc.files[fileIdx].size && todo == Todo(fc.files, fileIdx, physOffset)
    {
      w, todo := WalkFile(fc, fileIdx, physOffset, q, since, chunkSize, w, ms);
      if !w.stop && |w.collected| < q.count {
        EarlierStep(fc, fileIdx, q, since, ms, w, todo);
      }
      fileIdx := fileIdx - 1;
      if fileIdx >= 0 {
        physOffset := fc.files[fileIdx].size;
        todo := if !w.stop && |w.collected| < q.count then Todo(fc.files, fileIdx, physOffset) else todo;
      }
    }

    // Trimming to count: the walk never holds more.
    if |w.collected| > q.count {
      assert false;
    }
    var lines: seq<Line> := [];
    for i := 0 to |w.collected|
      invariant lines == Reverse(w.collected[..i])
    {
      assert w.collected[..i + 1][..i] == w.collected[..i];
      lines := [w.collected[i]] + lines;
    }
    assert w.collected[..|w.collected|] == w.collected;
    page := if lines == [] then Page([], logicalOffset, logicalOffset)
            else Page(lines, lines[0].offset, logicalOffset);
    FinishWalk(fc, logicalOffset, q, since, ms, w, todo, page);
  }
}
