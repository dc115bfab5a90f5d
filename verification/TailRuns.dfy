/**
 The live tail over whole histories: appends, rotation steps that drop generations, polls and reloads
 in any order. What is behind the cursor stays behind it until the page is loaded anew.
 */
module TailRuns {
  import opened Bytes
  import opened Lines
  import opened Chain
  import opened ForwardRead
  import opened BackwardRead
  import opened Paging
  import opened EndToEnd
  import opened LiveTail
  import opened TailDrops
  import R = Rotation
  import ChainSearch
  import PageContents

  /** A step of the server, a poll that finds no rotation, a poll that fails, or nothing. */
  ghost predicate Onward(a: Moment, b: Moment, m: nat, q: Query) {
    || (b.view == a.view && Step(a.world, b.world, m))
    || (b.world == a.world && a.view.chainEnd <= a.Chain(m).total && Polled(a.Chain(m), q, a.view, b.view))
    || b == a
  }

  /** The page is loaded: at first, on a poll that finds a rotation, or because the user asks. */
  ghost predicate Reload(a: Moment, b: Moment, m: nat, q: Query) {
    b.world == a.world && Loaded(a.Chain(m), q, a.view, b.view)
  }

  ghost predicate History(run: seq<Moment>, m: nat, q: Query) {
    && run != [] && Sound(run[0].world, m)
    && (forall i | 0 <= i < |run| :: Short(run[i].world, q.maxLine))
    && forall i | 0 < i < |run| :: Onward(run[i - 1], run[i], m, q) || Reload(run[i - 1], run[i], m, q)
  }

  ghost predicate NotReloaded(run: seq<Moment>, j: nat, k: nat, m: nat, q: Query) {
    j <= k < |run| && forall i | j < i <= k :: Onward(run[i - 1], run[i], m, q)
  }

  function Worlds(run: seq<Moment>): (ws: seq<World>)
    ensures |ws| == |run|
  {
    seq(|run|, i requires 0 <= i < |run| => run[i].world)
  }

  lemma {:induction false} HistoryStretch(run: seq<Moment>, m: nat, q: Query)
    requires History(run, m, q)
    ensures Stretch(Worlds(run), m)
    ensures forall k | 0 <= k < |run| :: Whole(run[k].Chain(m), q.maxLine) && run[k].Chain(m).Valid()
  {
    hide Sound, Step, Polled, Loaded, Short, Whole, FileChain.Valid;
    var ws := Worlds(run);
    forall i | 0 < i < |ws| ensures ws[i] == ws[i - 1] || Step(ws[i - 1], ws[i], m) {
      assert Onward(run[i - 1], run[i], m, q) || Reload(run[i - 1], run[i], m, q);
    }
    hide ChainOf;
    forall k | 0 <= k < |run| ensures Whole(run[k].Chain(m), q.maxLine) && run[k].Chain(m).Valid() {
      WholeAt(ws, k, m, q.maxLine);
      WholeValid(run[k].Chain(m), q.maxLine);
    }
  }

  // ---- What the page shows is behind its cursor ----------------------------------------------

  /** Everything shown was read before the cursor, each line once, and the cursor is no further than the chain was. */
  ghost predicate Settled(v: View) {
    AllBelow(v.shown, v.tailOffset) && ChainSearch.Increasing(v.shown) && v.tailOffset <= v.chainEnd
  }

  lemma {:induction false} LoadedSettled(fc: FileChain, q: Query, v: View, w: View)
    requires Whole(fc, q.maxLine) && Loaded(fc, q, v, w)
    ensures Settled(w)
  {
    WholeValid(fc, q.maxLine);
    hide Whole, FileChain.Valid, After, Before, AllLines, Tidy, Hits, ChainSearch.Increasing, AllBelow, AllFrom;
    if Nothing(fc, v.clearOffset) {
      NothingSettled(fc.total);
    } else {
      BeforeEnd(fc);
      ChainIncreasing(fc, q.maxLine);
      var ls := AllLines(fc.files, 0);
      PageContents.TidyWithin(ls, q.maxLine, v.clearOffset, 0, fc.total);
      HitsSettled(Tidy(ls, q.maxLine, v.clearOffset), q.accepts, fc.total);
      NewestSettled(w.shown, Wanted(ls, q, v.clearOffset), fc.total);
    }
  }

  lemma {:induction false} NothingSettled(total: nat)
    ensures AllBelow([], total) && ChainSearch.Increasing([])
  {}

  lemma {:induction false} NewestSettled(r: seq<Line>, ms: seq<Line>, o: nat)
    requires |r| <= |ms| && r == ms[|ms| - |r|..] && AllBelow(ms, o) && ChainSearch.Increasing(ms)
    ensures AllBelow(r, o) && ChainSearch.Increasing(r)
  {}

  lemma {:induction false} HitsSettled(ls: seq<Line>, f: Bytes -> bool, o: nat)
    requires AllBelow(ls, o) && ChainSearch.Increasing(ls)
    ensures AllBelow(Hits(ls, f), o) && ChainSearch.Increasing(Hits(ls, f))
  {
    hide Hits;
    ChainSearch.HitsIncreasing(ls, f);
    HitsMembers(ls, f);
    var r := Hits(ls, f);
    assert forall i | 0 <= i < |r| :: r[i] in r;
  }

  lemma {:induction false} ChainIncreasing(fc: FileChain, maxLine: nat)
    requires Whole(fc, maxLine)
    ensures var ls := AllLines(fc.files, 0);
            ChainSearch.Increasing(ls) && AllFrom(ls, 0) && AllBelow(ls, fc.total)
  {
    AfterIsAll(fc.files, 0, maxLine);
    WholeValid(fc, maxLine);
    hide Whole, FileChain.Valid, After, Before, AllLines, ChainSearch.Increasing;
    ChainSearch.AfterIncreasing(fc, 0, 0, maxLine);
    BeforeEnd(fc);
    BeforeInChain(fc, |fc.files|, fc.total);
    var ls := AllLines(fc.files, 0);
    assert forall i | 0 <= i < |ls| :: ls[i] in ls;
  }

  lemma {:induction false} PolledSettled(fc: FileChain, q: Query, v: View, w: View)
    requires fc.Valid() && v.chainEnd <= fc.total && Polled(fc, q, v, w) && Settled(v)
    ensures Settled(w)
  {
    var r :| IsAnswer(fc, Forward, v.tailOffset, v.clearOffset, q, r) && w == Extended(v, r);
    hide Boundary, Hits, After, FileChain.Valid, AllBelow, ChainSearch.Increasing, Polled;
    var o := Start(v);
    AheadIncreasing(fc, o, q);
    AheadOffsets(fc, o, q);
    if Nothing(fc, v.clearOffset) {
      assert w.shown == v.shown;
    } else {
      PageSettled(v.shown, r.lines, Ahead(fc, o, q), v.tailOffset, o, r.nextOffset);
    }
  }

  lemma {:induction false} PageSettled(shown: seq<Line>, page: seq<Line>, ms: seq<Line>, tail: nat, o: nat, next: nat)
    requires AllBelow(shown, tail) && ChainSearch.Increasing(shown) && tail <= o <= next
    requires ChainSearch.Increasing(ms) && AllFrom(ms, o) && page <= ms
    requires page != [] ==> page[|page| - 1].offset < next
    ensures AllBelow(shown + page, next) && ChainSearch.Increasing(shown + page)
  {
    assert forall i | 0 <= i < |page| :: page[i] == ms[i];
  }

  lemma {:induction false} AheadIncreasing(fc: FileChain, o: nat, q: Query)
    requires fc.Valid()
    ensures ChainSearch.Increasing(Ahead(fc, o, q))
  {
    hide Hits, After, FileChain.Valid, ChainSearch.Increasing;
    ChainSearch.AfterIncreasing(fc, 0, o, q.maxLine);
    ChainSearch.HitsIncreasing(After(fc.files, 0, o, q.maxLine), q.accepts);
  }

  lemma {:induction false} HistoryAt(run: seq<Moment>, k: nat, m: nat, q: Query)
    requires History(run, m, q) && k < |run|
    ensures k > 0 ==> Onward(run[k - 1], run[k], m, q) || Reload(run[k - 1], run[k], m, q)
    ensures Whole(run[k].Chain(m), q.maxLine) && run[k].Chain(m).Valid()
  {
    HistoryStretch(run, m, q);
    hide Onward, Reload, Whole, FileChain.Valid, ChainOf, Sound;
  }

  lemma {:induction false} StepSettled(a: Moment, b: Moment, m: nat, q: Query)
    requires Whole(a.Chain(m), q.maxLine) && (Onward(a, b, m, q) || Reload(a, b, m, q))
    ensures Reload(a, b, m, q) || Settled(a.view) ==> Settled(b.view)
  {
    WholeValid(a.Chain(m), q.maxLine);
    hide Step, Loaded, Polled, Settled, Whole, FileChain.Valid, ChainOf;
    if Reload(a, b, m, q) {
      LoadedSettled(a.Chain(m), q, a.view, b.view);
    } else if Settled(a.view) && b.view != a.view {
      PolledSettled(a.Chain(m), q, a.view, b.view);
    }
  }

  /** A page is settled once it has been loaded, and stays so through whatever happens. */
  lemma {:induction false} HistorySettled(run: seq<Moment>, k: nat, m: nat, q: Query)
    requires History(run, m, q) && k < |run|
    requires Settled(run[0].view) || exists i | 0 < i <= k :: Reload(run[i - 1], run[i], m, q)
    ensures Settled(run[k].view)
    decreases k
  {
    hide History, Reload, Onward, Settled, Whole, FileChain.Valid;
    if k > 0 {
      HistoryAt(run, k - 1, m, q);
      HistoryAt(run, k, m, q);
      StepSettled(run[k - 1], run[k], m, q);
      if !Reload(run[k - 1], run[k], m, q) {
        HistorySettled(run, k - 1, m, q);
      }
    }
  }

  // ---- Until a reload -----------------------------------------------------------------------

  /** What polls add after moment j starts where the tail was at moment j or later. */
  lemma {:induction false} OnwardFrom(run: seq<Moment>, j: nat, k: nat, m: nat, q: Query)
    requires History(run, m, q) && NotReloaded(run, j, k, m, q)
    ensures Extends(run[j].view, run[k].view)
    decreases k
  {
    assert j <= k < |run|;
    if j == k {
      ExtendsSelf(run[j].view);
    } else {
      NotReloadedAt(run, j, k, m, q);
      hide *;
      OnwardFrom(run, j, k - 1, m, q);
      HistoryAt(run, k - 1, m, q);
      OnwardExtends(run[k - 1], run[k], m, q);
      ExtendsOn(run[j].view, run[k - 1].view, run[k].view);
    }
  }

  /** The page has gained only lines from where it was waiting, or from further on. */
  ghost predicate Extends(v: View, w: View) {
    v.shown <= w.shown && Start(v) <= Start(w) && AllFrom(NewlyShown(v, w), Start(v))
  }

  lemma {:induction false} NotReloadedAt(run: seq<Moment>, j: nat, k: nat, m: nat, q: Query)
    requires NotReloaded(run, j, k, m, q) && j < k
    ensures NotReloaded(run, j, k - 1, m, q) && Onward(run[k - 1], run[k], m, q)
  {
    hide Onward;
  }

  lemma {:induction false} ExtendsSelf(v: View)
    ensures Extends(v, v)
  {}

  lemma {:induction false} ExtendsOn(v: View, u: View, w: View)
    requires Extends(v, u) && Extends(u, w)
    ensures Extends(v, w)
  {
    hide Start;
    assert NewlyShown(v, w) == NewlyShown(v, u) + NewlyShown(u, w);
  }

  lemma {:induction false} OnwardExtends(a: Moment, b: Moment, m: nat, q: Query)
    requires a.Chain(m).Valid() && Onward(a, b, m, q)
    ensures Extends(a.view, b.view)
  {
    hide Step, Polled, FileChain.Valid, ChainOf, Start;
    if b.view != a.view {
      PollSplits(a.Chain(m), q, a.view, b.view);
      PollLooksAhead(a.Chain(m), q, a.view, b.view);
    }
  }

  /**
   A line behind the tail at moment j stays behind it, dropped or not, until the page is loaded anew: at
   moment k it is d bytes further down, if it is still there, while everything polls have shown since,
   and everything still ahead, starts beyond it. So a line shown is not shown again, and a line missed
   is not made up for.
   */
  lemma {:induction false} BehindUntilReload(run: seq<Moment>, j: nat, k: nat, m: nat, q: Query, l: Line)
    requires m >= 1 && History(run, m, q) && NotReloaded(run, j, k, m, q)
    requires l in AllLines(run[j].Chain(m).files, 0) && l.offset < Start(run[j].view)
    ensures var d := Dropped(Worlds(run), j, k, m);
            l.offset >= d ==> Line(l.text, l.offset - d) in AllLines(run[k].Chain(m).files, 0)
    ensures run[j].view.shown <= run[k].view.shown
    ensures forall x <- NewlyShown(run[j].view, run[k].view) + Ahead(run[k].Chain(m), Start(run[k].view), q) ::
              x.offset > l.offset
  {
    assert j <= k < |run|;
    HistoryStretch(run, m, q);
    OnwardFrom(run, j, k, m, q);
    HistoryShort(run, m, q);
    hide History, NotReloaded;
    Shifted(run, j, k, m, q, l);
    NothingBefore(run[j].view, run[k].view, run[k].Chain(m), q);
  }

  lemma {:induction false} NothingBefore(v: View, w: View, fc: FileChain, q: Query)
    requires Extends(v, w)
    ensures forall x <- NewlyShown(v, w) + Ahead(fc, Start(w), q) :: x.offset >= Start(v)
  {
    hide Ahead, Start, NewlyShown;
    AheadOffsets(fc, Start(w), q);
    InConcat(NewlyShown(v, w), Ahead(fc, Start(w), q));
  }

  lemma {:induction false} Shifted(run: seq<Moment>, j: nat, k: nat, m: nat, q: Query, l: Line)
    requires m >= 1 && j <= k < |run| && Stretch(Worlds(run), m)
    requires forall i | 0 <= i < |run| :: Short(Worlds(run)[i], q.maxLine)
    requires l in AllLines(run[j].Chain(m).files, 0)
    ensures var d := Dropped(Worlds(run), j, k, m);
            l.offset >= d ==> Line(l.text, l.offset - d) in AllLines(run[k].Chain(m).files, 0)
  {
    hide Stretch, AllLines, Slid, Short, ChainOf, Dropped, Appended;
    var ws := Worlds(run);
    RunSlides(ws, j, k, m, q.maxLine);
    var d := Dropped(ws, j, k, m);
    if l.offset >= d {
      StillThere(ChainOf(ws[j].disk, m), ChainOf(ws[k].disk, m), d, Appended(ws, j, k), l);
    }
  }

  lemma {:induction false} HistoryShort(run: seq<Moment>, m: nat, q: Query)
    requires History(run, m, q)
    ensures forall k | 0 <= k < |run| :: Short(Worlds(run)[k], q.maxLine)
  {
    hide Sound, Onward, Reload;
  }

  lemma {:induction false} StillThere(a: FileChain, b: FileChain, d: nat, g: nat, l: Line)
    requires Slid(a, b, d, g) && l in AllLines(a.files, 0) && l.offset >= d
    ensures Line(l.text, l.offset - d) in AllLines(b.files, 0)
  {
    hide AllLines;
    var lost, added :| SlidBy(a, b, d, g, lost, added);
    var la, lb := AllLines(a.files, 0), AllLines(b.files, 0);
    InConcat(la, added);
    InConcat(lost, Moved(lb, d));
    assert l in lost + Moved(lb, d);
    if l in lost {
      assert false;
    } else {
      var i :| 0 <= i < |lb| && Moved(lb, d)[i] == l;
      assert lb[i] == Line(l.text, l.offset - d);
    }
  }

  // ---- A reload ----------------------------------------------------------------------------

  /** The same run with one more rotation begun: the file of the second record goes. */
  function ReloadRun(): seq<World> {
    MadeUpRun() + [World(map[0 := [67, LF]], [[65], [66], [67]])]
  }

  lemma {:induction false} ReloadSteps(m: nat)
    requires m == 1
    ensures Run(ReloadRun(), m)
  {
    var run, before := ReloadRun(), MadeUpRun();
    MadeUpIsRun(m);
    forall k | 0 < k < |run| ensures Step(run[k - 1], run[k], m) {
      if k < 7 {
        assert Step(before[k - 1], before[k], m);
        assert run[k - 1] == before[k - 1] && run[k] == before[k];
      } else {
        assert run[7].disk == run[6].disk - {1};
        assert R.RotationStep(run[6].disk, run[7].disk, m);
      }
    }
  }

  lemma {:induction false} OneRecord(x: byte, b: Bytes, base: nat)
    requires x != LF && b == [x, LF]
    ensures LinesOf(b, base) == [Line([x], base)]
  {
    LinesStep(b, 0, 2, base);
    LinesNone(b, 2, base);
    hide LinesIn;
    assert NextLf(b, 0, 2) == 1;
    assert b[0..1] == [x];
  }

  /** The chain of one two-byte file, and of two. */
  lemma {:induction false} SmallChains(x: byte, y: byte, m: nat)
    requires m == 1 && x != LF && y != LF
    ensures var one := ChainOf(map[0 := [y, LF]], m);
            one.total == 2 && AllLines(one.files, 0) == [Line([y], 0)]
    ensures var two := ChainOf(map[0 := [y, LF], 1 := [x, LF]], m);
            AllLines(two.files, 0) == [Line([x], 0), Line([y], 2)]
  {
    var f1: Bytes, f2: Bytes := [x, LF], [y, LF];
    var none: seq<Bytes> := [];
    var one, two: Generations := map[0 := f2], map[0 := f2, 1 := f1];
    assert Present(one, m, 2) == none && Present(two, m, 2) == none;
    assert Present(one, m, 1) == none && Present(two, m, 1) == [f1];
    assert Present(one, m, 0) == [f2] && Present(two, m, 0) == [f1, f2];
    hide Present, AllLines, LinesOf, Layout;
    assert [f2] + none == [f2] && [f1] + [f2] == [f1, f2] && [f2][1..] == none;
    assert |Flatten(none)| == 0 && Flatten([f2]) == f2 + Flatten(none);
    LaidOut(f1, [f2], 0);
    LaidOut(f2, none, 2);
    LaidOut(f2, none, 0);
    NoLayout(2);
    NoLayout(4);
    OneRecord(x, f1, 0);
    OneRecord(y, f2, 2);
    OneRecord(y, f2, 0);
  }

  /** A chain of one matching record, loaded. */
  lemma {:induction false} LoadsOne(fc: FileChain, q: Query, v: View, w: View, x: byte)
    requires fc.Valid() && fc.total > 0 && AllLines(fc.files, 0) == [Line([x], 0)] && x != CR
    requires q.count >= 1 && q.maxLine >= 1 && q.accepts([x]) && v.clearOffset == -1 && Loaded(fc, q, v, w)
    ensures w.shown == [Line([x], 0)]
  {
    BeforeEnd(fc);
    WantedOne(x, q);
    hide Before, AllLines, Wanted, FileChain.Valid;
  }

  lemma {:induction false} WantedOne(x: byte, q: Query)
    requires q.maxLine >= 1 && q.accepts([x]) && x != CR
    ensures Wanted([Line([x], 0)], q, -1) == [Line([x], 0)]
  {
    var l := Line([x], 0);
    assert [l][1..] == [];
    NoHits(q, -1);
    assert Tidy([l], q.maxLine, -1) == [l];
  }

  /**
   What polls missed a reload may show: the page that had shown the first two records, waiting at 4,
   misses the third at moment 6, where it starts at 2; one delete later the chain is shorter than the
   page has seen it, and the page loaded anew shows that record.
   */
  lemma {:induction false} ReloadMakesUp(m: nat, q: Query, v: View, w: View)
    requires m == 1 && q.count >= 1 && q.maxLine > 1 && q.accepts([67])
    requires v.clearOffset == -1 && v.tailOffset == v.chainEnd == 4
    ensures var run := ReloadRun();
            && Run(run, m) && run[..7] == MadeUpRun()
            && Line([67], 2) in AllLines(ChainOf(run[6].disk, m).files, 0)
            && ChainOf(run[7].disk, m).total < v.chainEnd
            && (Loaded(ChainOf(run[7].disk, m), q, v, w) ==> w.shown == [Line([67], 0)])
  {
    ReloadSteps(m);
    SmallChains(66, 67, m);
    ChainOfValid(ReloadRun()[7].disk, m);
    hide Run, ChainOf, AllLines, Loaded, FileChain.Valid;
    if Loaded(ChainOf(ReloadRun()[7].disk, m), q, v, w) {
      LoadsOne(ChainOf(ReloadRun()[7].disk, m), q, v, w, 67);
    }
  }
}
