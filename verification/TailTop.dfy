/**
 The older end of the page: what lies above the first line shown. Scrolling up from there continues
 the page exactly, however many records the tail has brought at the other end.
 */
module TailTop {
  import opened Bytes
  import opened Lines
  import opened Chain
  import opened ForwardRead
  import opened BackwardRead
  import opened Paging
  import opened EndToEnd
  import opened LiveTail
  import R = Rotation
  import PageContents

  /** After a load, the wanted lines above the page and those on it are the wanted lines of the chain. */
  lemma {:induction false} LoadedTop(fc: FileChain, q: Query, v: View, w: View)
    requires fc.Valid() && Loaded(fc, q, v, w)
    ensures Behind(fc, w.topOffset, q, v.clearOffset) + w.shown == Behind(fc, fc.total, q, v.clearOffset)
    ensures w.tailOffset == w.chainEnd == fc.total && w.clearOffset == v.clearOffset
    ensures w.shown != [] ==> w.topOffset == w.shown[0].offset
  {
    var r :| IsAnswer(fc, Tail, 0, v.clearOffset, q, r) && w == Reloaded(v, r);
    hide Behind, FileChain.Valid, IsBackwardPage;
    if Nothing(fc, v.clearOffset) {
      NothingBehind(fc, 0, v.clearOffset, q);
      NothingBehind(fc, fc.total, v.clearOffset, q);
    } else {
      var page := Page(r.lines, r.firstOffset, r.nextOffset);
      BehindPage(fc, fc.total, q, v.clearOffset, page);
      FirstOfPage(fc, fc.total, q, v.clearOffset, page);
    }
  }

  lemma {:induction false} FirstOfPage(fc: FileChain, o: nat, q: Query, since: int, page: Page)
    requires IsBackwardPage(fc, o, q, since, page)
    ensures page.firstOffset == if page.lines == [] then o else page.lines[0].offset
  {
    hide Before, Wanted;
  }

  /** Line by line: what a load shows, and what it leaves out only because the page is full. */
  lemma {:induction false} LoadedExactly(fc: FileChain, q: Query, v: View, w: View, l: Line)
    requires fc.Valid() && Loaded(fc, q, v, w)
    ensures var can := PageContents.CanReturn(fc, fc.total, q, v.clearOffset, l);
            && (l in w.shown <==> can && w.shown != [] && l.offset >= w.topOffset)
            && (!PageContents.Full(q, w.shown) && can ==> l in w.shown)
  {
    var r :| IsAnswer(fc, Tail, 0, v.clearOffset, q, r) && w == Reloaded(v, r);
    if Nothing(fc, v.clearOffset) {
      NothingBehind(fc, fc.total, v.clearOffset, q);
      PageContents.WantedHas(fc, fc.total, q, v.clearOffset, l);
    } else {
      hide PageContents.CanReturn, PageContents.Full, FileChain.Valid, IsBackwardPage;
      PageContents.BackwardExactly(fc, fc.total, q, v.clearOffset, Page(r.lines, r.firstOffset, r.nextOffset), l);
    }
    hide *;
  }

  /** Scrolling up from a loaded page: the older pages in front of it repeat nothing and skip nothing. */
  lemma {:induction false} OlderPages(fc: FileChain, q: Query, v: View, w: View, xs: seq<Exchange>)
    requires fc.Valid() && Loaded(fc, q, v, w) && BackwardRun(fc, w.topOffset, q, v.clearOffset, xs)
    ensures Behind(fc, BackwardCursor(w.topOffset, xs), q, v.clearOffset) + (Prepended(xs) + w.shown)
            == Behind(fc, fc.total, q, v.clearOffset)
    ensures xs != [] && xs[|xs| - 1].page.lines == [] && xs[|xs| - 1].count >= 1 ==>
              Prepended(xs) + w.shown == Behind(fc, fc.total, q, v.clearOffset)
  {
    LoadedTop(fc, q, v, w);
    BackwardPaging(fc, w.topOffset, q, v.clearOffset, xs);
    hide Behind, FileChain.Valid, Loaded, BackwardRun;
    Assoc(Behind(fc, BackwardCursor(w.topOffset, xs), q, v.clearOffset), Prepended(xs), w.shown);
    if xs != [] && xs[|xs| - 1].page.lines == [] && xs[|xs| - 1].count >= 1 {
      BackwardComplete(fc, w.topOffset, q, v.clearOffset, xs);
    }
  }

  // ---- While the tail follows ---------------------------------------------------------------

  /** The top of a loaded page is a place between two lines. */
  lemma {:induction false} TopIsCursor(fc: FileChain, q: Query, v: View, w: View)
    requires fc.Valid() && Loaded(fc, q, v, w)
    ensures Cursor(fc, w.topOffset)
  {
    var r :| IsAnswer(fc, Tail, 0, v.clearOffset, q, r) && w == Reloaded(v, r);
    hide Behind, Wanted, Before, Boundary;
    if Nothing(fc, v.clearOffset) {
      StartIsCursor(fc);
    } else if r.lines == [] {
      AtEnd(fc);
    } else {
      var ls := Before(fc.files, |fc.files|, fc.total);
      var ms := Wanted(ls, q, v.clearOffset);
      var j := WantedFrom(ls, q, v.clearOffset, |ms| - |r.lines|);
      assert ls[j] in ls;
      var i, p, e := PageContents.BeforeIn(fc, |fc.files|, fc.total, ls[j]);
      LineIsCursor(fc, i, p, e);
    }
  }

  lemma {:induction false} StartIsCursor(fc: FileChain)
    requires fc.Valid()
    ensures Cursor(fc, 0)
  {
    if !fc.Empty() {
      assert AtLineStart(fc.files[0].data, 0 - fc.files[0].start);
    }
  }

  lemma {:induction false} LineIsCursor(fc: FileChain, i: nat, p: nat, e: nat)
    requires PageContents.LineBefore(fc, fc.total, i, p, e)
    ensures Boundary(fc.files, fc.files[i].start + p)
  {
    assert AtLineStart(fc.files[i].data, fc.files[i].start + p - fc.files[i].start);
  }

  /** An append adds nothing before a place it had. */
  lemma {:induction false} GrownBefore(a: FileChain, b: FileChain, r: Bytes, o: nat, maxLine: nat)
    requires Whole(a, maxLine) && Whole(b, maxLine) && Grown(a, b, r) && IsRecord(r) && Cursor(a, o)
    ensures Before(b.files, |b.files|, o) == Before(a.files, |a.files|, o) && Cursor(b, o)
  {
    GrownLines(a, b, r, maxLine);
    GrownCursor(a, b, r, o, maxLine);
    hide After, Before, AllLines, Whole, Grown, Cursor, AllBelow, AllFrom, IsRecord;
    CursorCuts(a, o, maxLine);
    CursorCuts(b, o, maxLine);
    var x, y := Before(a.files, |a.files|, o), Before(b.files, |b.files|, o);
    var after := After(a.files, 0, o, maxLine);
    Assoc(x, after, [Line(r, a.total)]);
    FromMore(after, Line(r, a.total), o);
    SameCut(x, after + [Line(r, a.total)], y, After(b.files, 0, o, maxLine), o);
  }

  /** The top stays where it was, between two lines, with the same lines above it. */
  ghost predicate TopKept(a: Moment, b: Moment, m: nat) {
    && b.view.topOffset == a.view.topOffset && b.view.clearOffset == a.view.clearOffset
    && Cursor(b.Chain(m), a.view.topOffset)
    && Before(b.Chain(m).files, |b.Chain(m).files|, a.view.topOffset)
       == Before(a.Chain(m).files, |a.Chain(m).files|, a.view.topOffset)
  }

  lemma {:induction false} StepKeepsTop(a: Moment, b: Moment, m: nat, q: Query)
    requires Next(a, b, m, q) && Following(a, m, q) && Following(b, m, q) && Cursor(a.Chain(m), a.view.topOffset)
    ensures TopKept(a, b, m)
  {
    hide Whole, Cursor, AllLines, Before, Polled, Loaded, R.RotationStep, R.AppendStep, Present, Grown;
    if b.view == a.view && ServerStep(a.world, b.world, m, q.maxLine) {
      if r :| WriteStep(a.world, b.world, r) && |r| < q.maxLine {
        AppendGrows(a.world, b.world, r, m);
        GrownBefore(a.Chain(m), b.Chain(m), r, a.view.topOffset, q.maxLine);
      } else {
        SameListing(a.world, b.world, m);
      }
    } else if b != a {
      PollKeepsTop(a.Chain(m), q, a.view, b.view);
    }
  }

  lemma {:induction false} SameListing(a: World, b: World, m: nat)
    requires (0 !in a.disk && b.disk == a.disk[0 := []]) || Present(b.disk, m, 0) == Present(a.disk, m, 0)
    ensures ChainOf(b.disk, m) == ChainOf(a.disk, m)
  {
    hide Present, Layout, Flatten;
    if 0 !in a.disk && b.disk == a.disk[0 := []] {
      PresentAbove(a.disk, b.disk, m, 1);
      PresentActive(a.disk, m);
      PresentActive(b.disk, m);
    }
  }

  lemma {:induction false} PollKeepsTop(fc: FileChain, q: Query, v: View, w: View)
    requires Polled(fc, q, v, w)
    ensures w.topOffset == v.topOffset && w.clearOffset == v.clearOffset
  {
    hide IsAnswer;
  }

  lemma {:induction false} KeptOn(a: Moment, b: Moment, c: Moment, m: nat)
    requires TopKept(a, b, m) && TopKept(b, c, m)
    ensures TopKept(a, c, m)
  {
    hide Before, Cursor, ChainOf;
  }

  lemma {:induction false} RunKeepsTop(run: seq<Moment>, n: nat, m: nat, q: Query)
    requires Watch(run, m, q) && n < |run| && forall i | 0 <= i < |run| :: Following(run[i], m, q)
    requires Cursor(run[0].Chain(m), run[0].view.topOffset)
    ensures TopKept(run[0], run[n], m)
    decreases n
  {
    hide Next, Following, Before, Cursor, ChainOf;
    if n > 0 {
      RunKeepsTop(run, n - 1, m, q);
      assert Next(run[n - 1], run[n], m, q);
      StepKeepsTop(run[n - 1], run[n], m, q);
      KeptOn(run[0], run[n - 1], run[n], m);
    }
  }

  /**
   The whole page. In every run of the live tail its top stays where the load put it, and the wanted
   lines above the top, those shown and those still ahead are, together, all the chain had wanted at the
   load and all the matches appended since.
   */
  lemma {:induction false} PageIsWhole(run: seq<Moment>, v: View, lost: seq<seq<Bytes>>, kept: seq<seq<Bytes>>, m: nat, q: Query)
    requires Watch(run, m, q) && q.count >= 1
    requires Holds(run[0].world, lost, kept, m) && Short(run[0].world, q.maxLine)
    requires Loaded(run[0].Chain(m), q, v, run[0].view) && v.clearOffset <= run[0].Chain(m).total
    ensures forall i | 0 <= i < |run| ::
              && run[i].view.topOffset == run[0].view.topOffset
              && Behind(run[i].Chain(m), run[i].view.topOffset, q, v.clearOffset)
                 + (run[i].view.shown + Ahead(run[i].Chain(m), run[i].view.tailOffset, q))
                 == Behind(run[0].Chain(m), run[0].Chain(m).total, q, v.clearOffset)
                    + Hits(Gained(run[0], run[i], m), q.accepts)
  {
    var fc, w := run[0].Chain(m), run[0].view;
    StartTracked(v, run[0], lost, kept, m, q);
    ChainOfValid(run[0].world.disk, m);
    LoadedTop(fc, q, v, w);
    TopIsCursor(fc, q, v, w);
    LiveTailDeliversOnce(run, v, lost, kept, m, q);
    FollowedThroughout(run, lost, kept, m, q);
    hide Holds, Loaded, Next, Tracked, Following, Moment.Chain, Wanted, Ahead, Hits, Gained, Short, Before, Cursor;
    forall i | 0 <= i < |run|
      ensures run[i].view.topOffset == w.topOffset
      ensures Behind(run[i].Chain(m), run[i].view.topOffset, q, v.clearOffset)
                 + (run[i].view.shown + Ahead(run[i].Chain(m), run[i].view.tailOffset, q))
                 == Behind(fc, fc.total, q, v.clearOffset) + Hits(Gained(run[0], run[i], m), q.accepts)
    {
      RunKeepsTop(run, i, m, q);
      var above := Behind(run[i].Chain(m), run[i].view.topOffset, q, v.clearOffset);
      assert above == Behind(fc, w.topOffset, q, v.clearOffset);
      Assoc(above, w.shown, Hits(Gained(run[0], run[i], m), q.accepts));
    }
  }

  lemma {:induction false} FollowedThroughout(run: seq<Moment>, lost: seq<seq<Bytes>>, kept: seq<seq<Bytes>>, m: nat, q: Query)
    requires Watch(run, m, q) && Tracked(run[0], run[0], m, q)
    requires Holds(run[0].world, lost, kept, m) && Short(run[0].world, q.maxLine)
    ensures forall i | 0 <= i < |run| :: Following(run[i], m, q)
  {
    hide Holds, Next, Short, Following, AllLines, Account, Gained, Hits;
    var _ := TailTracks(run, |run| - 1, lost, kept, m, q);
  }
}
