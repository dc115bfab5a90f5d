/**
 The live tail when rotation drops generations: what a poll then does, and what it misses. The page
 tells a rotation only by a chain end that went back, and appends can make up for a drop.
 */
module TailDrops {
  import opened Bytes
  import opened Lines
  import opened Chain
  import opened ForwardRead
  import opened BackwardRead
  import opened Paging
  import opened EndToEnd
  import opened LiveTail
  import R = Rotation

  // ---- How a run moves the chain --------------------------------------------------------

  /** The bytes a step puts at the end of the chain: a record and its LF. */
  function AppendedBytes(a: World, b: World): nat {
    if |b.written| > |a.written| then |b.written[|b.written| - 1]| + 1 else 0
  }

  /** Bytes dropped between moments i and j of a run. */
  function Dropped(run: seq<World>, i: nat, j: nat, m: nat): nat
    requires i <= j < |run|
    decreases j
  {
    if i == j then 0 else Dropped(run, i, j - 1, m) + DroppedBytes(run[j - 1].disk, run[j].disk, m)
  }

  /** Bytes appended between moments i and j of a run. */
  function Appended(run: seq<World>, i: nat, j: nat): nat
    requires i <= j < |run|
    decreases j
  {
    if i == j then 0 else Appended(run, i, j - 1) + AppendedBytes(run[j - 1], run[j])
  }

  /**
   From chain a to chain b, d bytes were dropped and g appended: b's lines, d bytes further on, are a's
   lines without `lost`, all of them from the dropped bytes, and then `added`, which starts where a ended.
   */
  ghost predicate SlidBy(a: FileChain, b: FileChain, d: nat, g: nat, lost: seq<Line>, added: seq<Line>) {
    && b.total + d == a.total + g
    && AllLines(a.files, 0) + added == lost + Moved(AllLines(b.files, 0), d)
    && AllBelow(lost, d) && AllFrom(added, a.total)
    && (added == [] <==> g == 0) && (added != [] ==> added[0].offset == a.total)
  }

  ghost predicate Slid(a: FileChain, b: FileChain, d: nat, g: nat) {
    exists lost, added :: SlidBy(a, b, d, g, lost, added)
  }

  lemma {:induction false} MovedNot(ls: seq<Line>)
    ensures Moved(ls, 0) == ls
  {}

  lemma {:induction false} MovedTwice(ls: seq<Line>, d: nat, e: nat)
    ensures Moved(Moved(ls, e), d) == Moved(ls, d + e)
  {}

  lemma {:induction false} SameSlid(a: FileChain)
    ensures Slid(a, a, 0, 0)
  {
    hide AllLines;
    MovedNot(AllLines(a.files, 0));
    var none: seq<Line> := [];
    assert AllLines(a.files, 0) + none == none + AllLines(a.files, 0);
    assert SlidBy(a, a, 0, 0, none, none);
  }

  lemma {:induction false} SlidTwice(
    a: FileChain, b: FileChain, c: FileChain, d1: nat, g1: nat, d2: nat, g2: nat,
    lost1: seq<Line>, added1: seq<Line>, lost2: seq<Line>, added2: seq<Line>)
    requires SlidBy(a, b, d1, g1, lost1, added1) && SlidBy(b, c, d2, g2, lost2, added2)
    ensures SlidBy(a, c, d1 + d2, g1 + g2, lost1 + Moved(lost2, d1), added1 + Moved(added2, d1))
  {
    hide AllLines;
    var la, lb, lc := AllLines(a.files, 0), AllLines(b.files, 0), AllLines(c.files, 0);
    Assoc(la, added1, Moved(added2, d1));
    Assoc(lost1, Moved(lb, d1), Moved(added2, d1));
    MovedAdd(lb, added2, d1);
    MovedAdd(lost2, Moved(lc, d2), d1);
    MovedTwice(lc, d1, d2);
    Assoc(lost1, Moved(lost2, d1), Moved(lc, d1 + d2));
  }

  lemma {:induction false} SlidOn(a: FileChain, b: FileChain, c: FileChain, d1: nat, g1: nat, d2: nat, g2: nat)
    requires Slid(a, b, d1, g1) && Slid(b, c, d2, g2)
    ensures Slid(a, c, d1 + d2, g1 + g2)
  {
    hide SlidBy;
    var lost1, added1 :| SlidBy(a, b, d1, g1, lost1, added1);
    var lost2, added2 :| SlidBy(b, c, d2, g2, lost2, added2);
    SlidTwice(a, b, c, d1, g1, d2, g2, lost1, added1, lost2, added2);
  }

  lemma {:induction false} WriteSlides(a: World, b: World, r: Bytes, m: nat, maxLine: nat)
    requires WriteStep(a, b, r) && Whole(ChainOf(a.disk, m), maxLine)
    ensures Slid(ChainOf(a.disk, m), ChainOf(b.disk, m), 0, |r| + 1)
  {
    var fa, fb := ChainOf(a.disk, m), ChainOf(b.disk, m);
    AppendGrows(a, b, r, m);
    hide ChainOf, AllLines, Whole, R.AppendStep;
    GrownLines(fa, fb, r, maxLine);
    MovedNot(AllLines(fb.files, 0));
    var none: seq<Line> := [];
    assert none + AllLines(fb.files, 0) == AllLines(fb.files, 0);
    assert SlidBy(fa, fb, 0, |r| + 1, none, [Line(r, fa.total)]);
  }

  lemma {:induction false} RotationSlides(a: Generations, b: Generations, m: nat)
    requires R.RotationStep(a, b, m)
    ensures Slid(ChainOf(a, m), ChainOf(b, m), DroppedBytes(a, b, m), 0)
  {
    RotationAndOffsets(a, b, m);
    var d := DroppedBytes(a, b, m);
    hide R.RotationStep, ChainOf, AllLines, LinesOf;
    if d == 0 {
      SameSlid(ChainOf(a, m));
    } else {
      var lost := LinesOf(a[m], 0);
      FileBelow(a[m]);
      var la, none: seq<Line> := AllLines(ChainOf(a, m).files, 0), [];
      assert la + none == la;
      assert SlidBy(ChainOf(a, m), ChainOf(b, m), d, 0, lost, none);
    }
  }

  lemma {:induction false} FileBelow(b: Bytes)
    ensures AllBelow(LinesOf(b, 0), |b|)
  {
    LinesOffsets(b, 0, |b|, 0);
    hide LinesIn;
    var ls := LinesOf(b, 0);
    assert forall i | 0 <= i < |ls| :: ls[i] in ls;
  }

  /** One step of the server. */
  lemma {:induction false} StepSlides(a: World, b: World, m: nat, maxLine: nat)
    requires m >= 1 && Step(a, b, m) && Whole(ChainOf(a.disk, m), maxLine)
    ensures Slid(ChainOf(a.disk, m), ChainOf(b.disk, m), DroppedBytes(a.disk, b.disk, m), AppendedBytes(a, b))
  {
    hide R.RotationStep, Whole, Slid, ChainOf;
    if r :| WriteStep(a, b, r) {
      WriteSlides(a, b, r, m, maxLine);
      assert m in b.disk <==> m in a.disk;
    } else if b.written == a.written && 0 !in a.disk && b.disk == a.disk[0 := []] {
      SameWhenCreated(a.disk, m);
      SameSlid(ChainOf(a.disk, m));
    } else {
      RotationSlides(a.disk, b.disk, m);
    }
  }

  lemma {:induction false} SameWhenCreated(a: Generations, m: nat)
    requires 0 !in a
    ensures ChainOf(a[0 := []], m) == ChainOf(a, m)
  {
    hide Present, Layout, Flatten;
    PresentAbove(a, a[0 := []], m, 1);
    PresentActive(a, m);
    PresentActive(a[0 := []], m);
  }

  /** The disk is what some writing of records leaves: whole records, in files. */
  ghost predicate Sound(w: World, m: nat) {
    exists lost, kept :: Holds(w, lost, kept, m)
  }

  /** Any stretch of any run, with pauses in it: it starts from a sound disk, full or empty. */
  ghost predicate Stretch(run: seq<World>, m: nat) {
    && run != [] && Sound(run[0], m)
    && forall i | 0 < i < |run| :: run[i] == run[i - 1] || Step(run[i - 1], run[i], m)
  }

  lemma {:induction false} RunIsStretch(run: seq<World>, m: nat)
    requires Run(run, m)
    ensures Stretch(run, m)
  {
    var none: seq<seq<Bytes>> := [];
    NothingPresent(m, 0);
    assert Holds(run[0], none, none, m);
    hide Step, Holds;
  }

  lemma {:induction false} StepSound(a: World, b: World, m: nat)
    requires Sound(a, m) && Step(a, b, m)
    ensures Sound(b, m)
  {
    hide Holds, R.RotationStep;
    var lost, kept :| Holds(a, lost, kept, m);
    if r :| WriteStep(a, b, r) {
      kept := AppendHolds(a, b, r, lost, kept, m);
    } else if b.written == a.written && 0 !in a.disk && b.disk == a.disk[0 := []] {
      CreateHolds(a, b, lost, kept, m);
    } else {
      lost, kept := RotateHolds(a, b, lost, kept, m);
    }
  }

  lemma {:induction false} SoundAt(run: seq<World>, k: nat, m: nat)
    requires Stretch(run, m) && k < |run|
    ensures Sound(run[k], m)
    decreases k
  {
    hide Step, Sound;
    if k > 0 {
      SoundAt(run, k - 1, m);
      assert run[k] == run[k - 1] || Step(run[k - 1], run[k], m);
      if run[k] != run[k - 1] {
        StepSound(run[k - 1], run[k], m);
      }
    }
  }

  lemma {:induction false} WholeAt(run: seq<World>, k: nat, m: nat, maxLine: nat)
    requires Stretch(run, m) && k < |run| && Short(run[k], maxLine)
    ensures Whole(ChainOf(run[k].disk, m), maxLine)
  {
    SoundAt(run, k, m);
    hide Stretch, Short, Whole, Holds;
    var lost, kept :| Holds(run[k], lost, kept, m);
    HoldsWhole(run[k], lost, kept, m, maxLine);
  }

  /** Any part of a stretch, through any drops. */
  lemma {:induction false} RunSlides(run: seq<World>, i: nat, j: nat, m: nat, maxLine: nat)
    requires Stretch(run, m) && m >= 1 && i <= j < |run| && forall k | 0 <= k < |run| :: Short(run[k], maxLine)
    ensures Slid(ChainOf(run[i].disk, m), ChainOf(run[j].disk, m), Dropped(run, i, j, m), Appended(run, i, j))
    decreases j
  {
    hide Slid, ChainOf, Whole, Short, Step, DroppedBytes, AppendedBytes;
    if i == j {
      SameSlid(ChainOf(run[i].disk, m));
    } else {
      RunSlides(run, i, j - 1, m, maxLine);
      WholeAt(run, j - 1, m, maxLine);
      assert run[j] == run[j - 1] || Step(run[j - 1], run[j], m);
      if run[j] == run[j - 1] {
        NothingMoved(run[j], m);
        SameSlid(ChainOf(run[j].disk, m));
      } else {
        StepSlides(run[j - 1], run[j], m, maxLine);
      }
      SlidOn(ChainOf(run[i].disk, m), ChainOf(run[j - 1].disk, m), ChainOf(run[j].disk, m),
             Dropped(run, i, j - 1, m), Appended(run, i, j - 1),
             DroppedBytes(run[j - 1].disk, run[j].disk, m), AppendedBytes(run[j - 1], run[j]));
    }
  }

  lemma {:induction false} NothingMoved(w: World, m: nat)
    ensures DroppedBytes(w.disk, w.disk, m) == 0 && AppendedBytes(w, w) == 0
  {}

  // ---- What the tail then does -------------------------------------------------------------

  lemma {:induction false} InFileFrom(b: Bytes, p: nat, base: nat, l: Line)
    requires l in LinesOf(b, base) && p <= |b| && l.offset >= base + p
    ensures l in LinesIn(b, p, |b|, base)
  {
    hide LinesIn;
    var ls := LinesOf(b, base);
    var j :| 0 <= j < |ls| && ls[j] == l;
    LineAt(b, 0, |b|, base, j);
    var pos := l.offset - base;
    LinesAt(b, p, pos, |b|, base);
    assert ls[j..][0] == l;
  }

  lemma {:induction false} LineInFile(cf: ChainFile, l: Line)
    requires l in LinesOf(cf.data, cf.start)
    ensures cf.start <= l.offset < cf.start + |cf.data|
  {
    LinesOffsets(cf.data, 0, |cf.data|, cf.start);
    hide LinesIn;
  }

  lemma {:induction false} FileAfterFrom(cf: ChainFile, o: nat, p: nat, maxLine: nat)
    requires p <= |cf.data| && p == (if o <= cf.start then 0 else o - cf.start)
    ensures FileAfter(cf, o, maxLine) == ShortPrefix(LinesIn(cf.data, p, |cf.data|, cf.start), maxLine)
  {
    hide LinesIn, ShortPrefix;
    if p == |cf.data| {
      LinesNone(cf.data, p, cf.start);
      NothingShort(maxLine);
    }
  }

  lemma {:induction false} NothingShort(maxLine: nat)
    ensures ShortPrefix([], maxLine) == []
  {}

  lemma {:induction false} FileHas(cf: ChainFile, o: nat, maxLine: nat, l: Line)
    requires AllShort(LinesOf(cf.data, cf.start), maxLine)
    requires l in LinesOf(cf.data, cf.start) && l.offset >= o
    ensures l in FileAfter(cf, o, maxLine)
  {
    hide LinesIn, ShortPrefix, FileAfter, AllShort;
    LineInFile(cf, l);
    var p := if o <= cf.start then 0 else o - cf.start;
    FileAfterFrom(cf, o, p, maxLine);
    ShortFrom(cf.data, 0, p, |cf.data|, cf.start, maxLine);
    ShortPrefixShort(LinesIn(cf.data, p, |cf.data|, cf.start), maxLine);
    InFileFrom(cf.data, p, cf.start, l);
  }

  lemma {:induction false} AfterHas(files: seq<ChainFile>, k: nat, o: nat, maxLine: nat, l: Line)
    requires k <= |files| && forall i | 0 <= i < |files| :: AllShort(LinesOf(files[i].data, files[i].start), maxLine)
    requires l in AllLines(files, k) && l.offset >= o
    ensures l in After(files, k, o, maxLine)
    decreases |files| - k
  {
    hide AllLines, After, LinesOf, FileAfter, AllShort;
    if k == |files| {
      NoMoreLines(files);
      assert false;
    } else {
      AllStep(files, k);
      AfterStep(files, k, o, maxLine);
      InConcat(LinesOf(files[k].data, files[k].start), AllLines(files, k + 1));
      if l in LinesOf(files[k].data, files[k].start) {
        FileHas(files[k], o, maxLine, l);
      } else {
        AfterHas(files, k + 1, o, maxLine, l);
      }
    }
  }

  /** Of a chain's matching lines, those ahead of an offset are those that start there or later. */
  lemma {:induction false} AheadExactly(fc: FileChain, o: nat, q: Query, l: Line)
    requires Whole(fc, q.maxLine) && l in AllLines(fc.files, 0) && l.text != [] && q.accepts(l.text)
    ensures l in Ahead(fc, o, q) <==> l.offset >= o
  {
    AheadOffsets(fc, o, q);
    if l.offset >= o {
      AfterHas(fc.files, 0, o, q.maxLine, l);
      hide After, AllLines, Hits;
      HitsHas(After(fc.files, 0, o, q.maxLine), q.accepts, l);
    }
  }

  /** What a poll shows of a chain. */
  function NewlyShown(v: View, w: View): seq<Line> {
    if v.shown <= w.shown then w.shown[|v.shown|..] else w.shown
  }

  /** Where the next poll starts: its cursor, or where the view was cleared when that is further on. */
  function Start(v: View): nat {
    From(v.tailOffset, v.clearOffset)
  }

  /** A poll splits what is ahead of its start, wherever that is, into what it shows and what it leaves. */
  lemma {:induction false} PollSplits(fc: FileChain, q: Query, v: View, w: View)
    requires fc.Valid() && Polled(fc, q, v, w)
    ensures v.shown <= w.shown && v.tailOffset <= w.tailOffset && w.clearOffset == v.clearOffset
    ensures Start(v) <= Start(w) && Ahead(fc, Start(v), q) == NewlyShown(v, w) + Ahead(fc, Start(w), q)
  {
    var r :| IsAnswer(fc, Forward, v.tailOffset, v.clearOffset, q, r) && w == Extended(v, r);
    hide Ahead, FileChain.Valid, IsAnswer;
    AnswerSplits(fc, v.tailOffset, v.clearOffset, q, r);
    assert w.shown[|v.shown|..] == r.lines;
  }

  /** Line by line: a poll shows it or leaves it ahead if and only if it starts where the poll does or later. */
  lemma {:induction false} PollExactly(fc: FileChain, q: Query, v: View, w: View, l: Line)
    requires Whole(fc, q.maxLine) && Polled(fc, q, v, w)
    requires l in AllLines(fc.files, 0) && l.text != [] && q.accepts(l.text)
    ensures l in NewlyShown(v, w) || l in Ahead(fc, Start(w), q)
            <==> l.offset >= v.tailOffset && l.offset >= v.clearOffset
  {
    WholeValid(fc, q.maxLine);
    assert l.offset >= Start(v) <==> l.offset >= v.tailOffset && l.offset >= v.clearOffset;
    hide Whole, Polled, Ahead, AllLines, NewlyShown, Start;
    PollSplits(fc, q, v, w);
    AheadExactly(fc, Start(v), q, l);
    InConcat(NewlyShown(v, w), Ahead(fc, Start(w), q));
  }

  /**
   Since the page's last answer at moment i, d bytes were dropped and g appended. The next poll takes
   the chain for rotated, and loads it anew, if and only if g < d. Otherwise a matching line of the
   chain is shown by it, or left ahead, if and only if it starts where the poll does or later, and that
   is d bytes too far on: the matching lines in those d bytes are missed, as the page had not shown
   them before either.
   */
  lemma {:induction false} TailAfterDrops(
    run: seq<World>, i: nat, j: nat, m: nat, q: Query, v: View, w: View)
    requires Stretch(run, m) && m >= 1 && i <= j < |run| && forall k | 0 <= k < |run| :: Short(run[k], q.maxLine)
    requires v.chainEnd == ChainOf(run[i].disk, m).total && AllBelow(v.shown, v.tailOffset)
    ensures ChainOf(run[j].disk, m).total < v.chainEnd <==> Appended(run, i, j) < Dropped(run, i, j, m)
    ensures var fc, d := ChainOf(run[j].disk, m), Dropped(run, i, j, m);
            Polled(fc, q, v, w) ==>
              forall l <- AllLines(fc.files, 0) | l.text != [] && q.accepts(l.text) ::
                && (l in NewlyShown(v, w) || l in Ahead(fc, Start(w), q)
                    <==> l.offset >= v.tailOffset && l.offset >= v.clearOffset)
                && ((l.offset < v.tailOffset || l.offset < v.clearOffset) && v.tailOffset <= l.offset + d
                    ==> Line(l.text, l.offset + d) !in v.shown)
  {
    var fc, d := ChainOf(run[j].disk, m), Dropped(run, i, j, m);
    RunSlides(run, i, j, m, q.maxLine);
    WholeAt(run, j, m, q.maxLine);
    hide Polled, Short, Step, Stretch, Whole, ChainOf, AllLines, Ahead, NewlyShown, Start;
    if Polled(fc, q, v, w) {
      forall l <- AllLines(fc.files, 0) | l.text != [] && q.accepts(l.text)
        ensures l in NewlyShown(v, w) || l in Ahead(fc, Start(w), q)
                <==> l.offset >= v.tailOffset && l.offset >= v.clearOffset
        ensures (l.offset < v.tailOffset || l.offset < v.clearOffset) && v.tailOffset <= l.offset + d
                ==> Line(l.text, l.offset + d) !in v.shown
      {
        PollExactly(fc, q, v, w, l);
      }
    }
  }

  /**
   So a page that had shown everything misses something as soon as anything is dropped and as much is
   appended: when no more than the chain was dropped, the first record appended after its last answer.
   */
  lemma {:induction false} DrainedTailSkips(
    run: seq<World>, i: nat, j: nat, m: nat, q: Query, v: View, w: View)
    requires Stretch(run, m) && m >= 1 && i <= j < |run| && forall k | 0 <= k < |run| :: Short(run[k], q.maxLine)
    requires 0 < v.tailOffset == v.chainEnd == ChainOf(run[i].disk, m).total && AllBelow(v.shown, v.tailOffset)
    requires 0 < Dropped(run, i, j, m) <= Appended(run, i, j) && Polled(ChainOf(run[j].disk, m), q, v, w)
    ensures var fc, d := ChainOf(run[j].disk, m), Dropped(run, i, j, m);
            exists l <- AllLines(fc.files, 0) ::
              && l.offset < v.tailOffset <= l.offset + d && (d <= v.tailOffset ==> l.offset + d == v.tailOffset)
              && l !in NewlyShown(v, w) && l !in Ahead(fc, Start(w), q) && Line(l.text, l.offset + d) !in v.shown
  {
    var fa, fb := ChainOf(run[i].disk, m), ChainOf(run[j].disk, m);
    var d, g := Dropped(run, i, j, m), Appended(run, i, j);
    RunSlides(run, i, j, m, q.maxLine);
    WholeAt(run, j, m, q.maxLine);
    WholeValid(fb, q.maxLine);
    assert Start(v) >= v.tailOffset;
    hide Polled, Short, Step, Stretch, ChainOf, Ahead, Whole, AllLines, NewlyShown, FileChain.Valid, Start;
    PollLooksAhead(fb, q, v, w);
    var l := SkippedLine(fa, fb, d, g);
    assert l !in NewlyShown(v, w) && l !in Ahead(fb, Start(w), q);
  }

  /** A poll shows, and leaves ahead, nothing from before its start. */
  lemma {:induction false} PollLooksAhead(fc: FileChain, q: Query, v: View, w: View)
    requires fc.Valid() && Polled(fc, q, v, w)
    ensures AllFrom(NewlyShown(v, w), Start(v)) && AllFrom(Ahead(fc, Start(w), q), Start(v))
  {
    hide Polled, Ahead, NewlyShown, FileChain.Valid, Start;
    PollSplits(fc, q, v, w);
    AheadOffsets(fc, Start(v), q);
    var new', left := NewlyShown(v, w), Ahead(fc, Start(w), q);
    assert forall k | 0 <= k < |new'| :: (new' + left)[k] == new'[k];
    assert forall k | 0 <= k < |left| :: (new' + left)[|new'| + k] == left[k];
  }

  /** Some line of the new chain starts in the d bytes below where the old one ended. */
  lemma {:induction false} SkippedLine(a: FileChain, b: FileChain, d: nat, g: nat) returns (l: Line)
    requires Slid(a, b, d, g) && 0 < d <= g && a.total > 0 && b.Valid()
    ensures l in AllLines(b.files, 0) && l.offset < a.total <= l.offset + d
    ensures d <= a.total ==> l.offset + d == a.total
  {
    var lost, added :| SlidBy(a, b, d, g, lost, added);
    if d <= a.total {
      AddedIsThere(a, b, d, g, lost, added);
      l :| l in AllLines(b.files, 0) && l.offset + d == a.total;
    } else {
      l := FirstLine(b);
    }
  }

  lemma {:induction false} FirstLine(fc: FileChain) returns (l: Line)
    requires fc.Valid() && fc.total > 0
    ensures l in AllLines(fc.files, 0) && l.offset == 0
  {
    var cf := fc.files[0];
    LinesStep(cf.data, 0, |cf.data|, cf.start);
    hide LinesIn, AllLines;
    AllStep(fc.files, 0);
    l := AllLines(fc.files, 0)[0];
  }

  lemma {:induction false} AddedIsThere(a: FileChain, b: FileChain, d: nat, g: nat, lost: seq<Line>, added: seq<Line>)
    requires SlidBy(a, b, d, g, lost, added) && g > 0 && d <= a.total
    ensures exists l <- AllLines(b.files, 0) :: l.offset + d == a.total
  {
    hide AllLines;
    var la, moved := AllLines(a.files, 0), Moved(AllLines(b.files, 0), d);
    var k := |la|;
    assert (la + added)[k] == added[0];
    assert forall i | 0 <= i < |lost| :: (lost + moved)[i] == lost[i];
    NotCutLater(lost + moved, k, |lost|, d);
    assert (lost + moved)[k] == moved[k - |lost|];
    var l := AllLines(b.files, 0)[k - |lost|];
    assert l in AllLines(b.files, 0);
  }

  /** Three records of one size, with a rotation before each but the first. */
  function MadeUpRun(): seq<World> {
    var r1: Bytes, r2: Bytes, r3: Bytes := [65], [66], [67];
    var f1: Bytes, f2: Bytes, f3: Bytes := [65, LF], [66, LF], [67, LF];
    [World(map[], []), World(map[0 := f1], [r1]), World(map[1 := f1], [r1]), World(map[0 := f2, 1 := f1], [r1, r2]),
     World(map[0 := f2], [r1, r2]), World(map[1 := f2], [r1, r2]), World(map[0 := f3, 1 := f2], [r1, r2, r3])]
  }

  lemma {:induction false} MadeUpSteps(k: nat, m: nat)
    requires 0 < k < 7 && m == 1
    ensures Step(MadeUpRun()[k - 1], MadeUpRun()[k], m)
  {
    var a, b := MadeUpRun()[k - 1], MadeUpRun()[k];
    var r1: Bytes, r2: Bytes, r3: Bytes, none: Bytes := [65], [66], [67], [];
    assert none + (r1 + [LF]) == [65, LF] && none + (r2 + [LF]) == [66, LF] && none + (r3 + [LF]) == [67, LF];
    match k
    case 1 => assert WriteStep(a, b, r1);
    case 2 => assert b.disk == R.Renamed(a.disk, 0, 1);
    case 3 => assert WriteStep(a, b, r2);
    case 4 => assert b.disk == a.disk - {1};
    case 5 => assert b.disk == R.Renamed(a.disk, 0, 1);
    case 6 => assert WriteStep(a, b, r3);
  }

  lemma {:induction false} MadeUpIsRun(m: nat)
    requires m == 1
    ensures Run(MadeUpRun(), m) && Stretch(MadeUpRun(), m)
  {
    var run := MadeUpRun();
    forall k | 0 < k < |run| ensures Step(run[k - 1], run[k], m) {
      MadeUpSteps(k, m);
    }
    RunIsStretch(run, m);
  }

  /**
   It happens: with max_files 1, the rotation before the third record drops the first, and the chain is
   then as long as it was. A page that had shown the second does not show the third at its next poll,
   and not at any later one until it is loaded anew.
   */
  lemma {:induction false} DropsCanBeMadeUp(m: nat)
    requires m == 1
    ensures var run := MadeUpRun();
            && Run(run, m) && Stretch(run, m) && Dropped(run, 3, 6, m) == Appended(run, 3, 6) == 2
            && ChainOf(run[3].disk, m).total == ChainOf(run[6].disk, m).total == 4
  {
    var run := MadeUpRun();
    MadeUpIsRun(m);
    hide Step, ChainOf, Run, Stretch;
    assert Dropped(run, 3, 3, m) == 0 && Appended(run, 3, 3) == 0;
    assert Dropped(run, 3, 4, m) == 2 && Appended(run, 3, 4) == 0;
    assert Dropped(run, 3, 5, m) == 2 && Appended(run, 3, 5) == 0;
    TwoFiles(run[3].disk, m);
    TwoFiles(run[6].disk, m);
  }

  lemma {:induction false} TwoFiles(a: Generations, m: nat)
    requires m == 1 && 0 in a && 1 in a && |a[0]| == |a[1]| == 2
    ensures ChainOf(a, m).total == 4
  {
    var p := Present(a, m, 0);
    assert Present(a, m, 2) == [];
    assert Present(a, m, 1) == [a[1]];
    assert p == [a[1], a[0]];
    assert p[1..] == [a[0]] && p[1..][1..] == [];
    assert Flatten([]) == [] && Flatten(p[1..]) == a[0] + Flatten([]);
  }
}
