/**
 The writer and the viewer together, through the files: whatever the order of appends and of
 rotation steps, aborted ones included, the viewer reads back what was written, in order, short only
 of generations dropped whole.
 */
module EndToEnd {
  import opened Bytes
  import opened Lines
  import opened Chain
  import opened ForwardRead
  import opened Paging
  import opened Options
  import LogFile
  import R = Rotation
  import TextEscape

  /** What one JSONL record can be: the serializer emits no raw LF or CR, and never nothing. */
  predicate IsRecord(r: Bytes) {
    r != [] && NoLf(r) && NoCr(r)
  }

  /** The directory of one chain, and every record written to it so far. */
  datatype World = World(disk: Generations, written: seq<Bytes>)

  ghost predicate WriteStep(a: World, b: World, r: Bytes) {
    IsRecord(r) && b.written == a.written + [r] && R.AppendStep(a.disk, b.disk, r + [LF])
  }

  /** A record is appended, the active file is created, or one step of a rotation is made. */
  ghost predicate Step(a: World, b: World, m: nat) {
    || (exists r :: WriteStep(a, b, r))
    || (b.written == a.written && 0 !in a.disk && b.disk == a.disk[0 := []])
    || (b.written == a.written && R.RotationStep(a.disk, b.disk, m))
  }

  ghost predicate Run(run: seq<World>, m: nat) {
    && run != [] && run[0] == World(map[], [])
    && forall i | 0 < i < |run| :: Step(run[i - 1], run[i], m)
  }

  // ---- What the files hold -------------------------------------------------------------

  /** One file, from the records written to it. */
  function FileOf(records: seq<Bytes>): Bytes {
    if records == [] then [] else FileOf(records[..|records| - 1]) + (records[|records| - 1] + [LF])
  }

  function Files(groups: seq<seq<Bytes>>): (files: seq<Bytes>)
    ensures |files| == |groups|
  {
    seq(|groups|, i requires 0 <= i < |groups| => FileOf(groups[i]))
  }

  function Concat(groups: seq<seq<Bytes>>): seq<Bytes> {
    if groups == [] then [] else groups[0] + Concat(groups[1..])
  }

  /**
   Everything written, cut up by file: the files dropped, oldest first, then those that are there.
   */
  ghost predicate Holds(w: World, lost: seq<seq<Bytes>>, kept: seq<seq<Bytes>>, m: nat) {
    && w.written == Concat(lost) + Concat(kept)
    && (forall i | 0 <= i < |w.written| :: IsRecord(w.written[i]))
    && Present(w.disk, m, 0) == Files(kept)
    && forall i | 0 <= i < |kept| :: kept[i] != []
  }

  /** A dropped file was, whole, the oldest generation at some point of the run. */
  ghost predicate WasOldest(run: seq<World>, m: nat, file: Bytes) {
    exists j | 0 <= j < |run| :: m in run[j].disk && run[j].disk[m] == file
  }

  ghost predicate DroppedWhole(run: seq<World>, m: nat, lost: seq<seq<Bytes>>) {
    forall i | 0 <= i < |lost| :: WasOldest(run, m, FileOf(lost[i]))
  }

  lemma {:induction false} ConcatAdd(a: seq<seq<Bytes>>, b: seq<seq<Bytes>>)
    ensures Concat(a + b) == Concat(a) + Concat(b)
  {
    if a == [] {
      assert a + b == b;
    } else {
      assert (a + b)[1..] == a[1..] + b;
      var head := a[0];
      assert Concat(a) == head + Concat(a[1..]);
      assert Concat(a + b) == head + Concat(a[1..] + b);
      ConcatAdd(a[1..], b);
      Assoc(head, Concat(a[1..]), Concat(b));
    }
  }

  lemma {:induction false} ConcatOne(g: seq<Bytes>)
    ensures Concat([g]) == g
  {
    assert Concat([]) == [];
  }

  lemma {:induction false} InGroups(groups: seq<seq<Bytes>>, i: nat)
    requires i < |groups|
    ensures forall r <- groups[i] :: r in Concat(groups)
  {
    if i > 0 {
      InGroups(groups[1..], i - 1);
    }
  }

  lemma {:induction false} FilesAdd(groups: seq<seq<Bytes>>, g: seq<Bytes>)
    ensures Files(groups + [g]) == Files(groups) + [FileOf(g)]
  {}

  lemma {:induction false} FileOfAdd(g: seq<Bytes>, r: Bytes)
    ensures FileOf(g + [r]) == FileOf(g) + (r + [LF])
  {
    assert (g + [r])[..|g|] == g;
  }

  lemma {:induction false} FileOfOne(r: Bytes)
    ensures FileOf([r]) == r + [LF]
  {
    assert FileOf([]) == [];
    FileOfAdd([], r);
    assert [] + [r] == [r];
    assert FileOf([]) + (r + [LF]) == r + [LF];
  }

  lemma {:induction false} PresentAbove(a: Generations, b: Generations, m: nat, k: nat)
    requires k > 0 && forall n: nat | n > 0 :: R.Get(b, n) == R.Get(a, n)
    ensures Present(b, m, k) == Present(a, m, k)
    decreases m + 1 - k
  {
    if k <= m {
      PresentAbove(a, b, m, k + 1);
      assert R.Get(b, k) == R.Get(a, k);
    }
  }

  lemma {:induction false} PresentActive(a: Generations, m: nat)
    ensures Present(a, m, 0) == Present(a, m, 1) + if 0 in a && a[0] != [] then [a[0]] else []
  {}

  /** An append extends the newest file by one record, or starts a new one. */
  lemma {:induction false} AppendHolds(a: World, b: World, r: Bytes, lost: seq<seq<Bytes>>, kept: seq<seq<Bytes>>, m: nat)
    returns (kept': seq<seq<Bytes>>)
    requires Holds(a, lost, kept, m) && WriteStep(a, b, r)
    ensures Holds(b, lost, kept', m)
  {
    hide Present, FileOf, Concat;
    PresentAbove(a.disk, b.disk, m, 1);
    PresentActive(a.disk, m);
    PresentActive(b.disk, m);
    var empty: Bytes := [];
    assert empty + (r + [LF]) == r + [LF];
    if 0 in a.disk && a.disk[0] != [] {
      var n := |kept| - 1;
      var g := kept[n] + [r];
      kept' := kept[..n] + [g];
      assert |Files(kept)| == |Present(a.disk, m, 1)| + 1;
      assert kept == kept[..n] + [kept[n]];
      FilesAdd(kept[..n], kept[n]);
      assert Files(kept)[n] == a.disk[0];
      assert Present(a.disk, m, 1) == Files(kept)[..n] == Files(kept[..n]);
      FilesAdd(kept[..n], g);
      FileOfAdd(kept[n], r);
      ConcatAdd(kept[..n], [kept[n]]);
      ConcatAdd(kept[..n], [g]);
      ConcatOne(kept[n]);
      ConcatOne(g);
      Assoc(Concat(kept[..n]), kept[n], [r]);
    } else {
      kept' := kept + [[r]];
      FilesAdd(kept, [r]);
      FileOfOne(r);
      ConcatAdd(kept, [[r]]);
      ConcatOne([r]);
    }
    assert Concat(kept') == Concat(kept) + [r];
    Assoc(Concat(lost), Concat(kept), [r]);
  }

  lemma {:induction false} CreateHolds(a: World, b: World, lost: seq<seq<Bytes>>, kept: seq<seq<Bytes>>, m: nat)
    requires Holds(a, lost, kept, m) && b.written == a.written && 0 !in a.disk && b.disk == a.disk[0 := []]
    ensures Holds(b, lost, kept, m)
  {
    hide Present;
    PresentAbove(a.disk, b.disk, m, 1);
    PresentActive(a.disk, m);
    PresentActive(b.disk, m);
  }

  /** Dropping the oldest file takes its records, and no others, from those that are there. */
  lemma {:induction false} DropHolds(a: World, b: World, lost: seq<seq<Bytes>>, kept: seq<seq<Bytes>>, m: nat)
    returns (lost': seq<seq<Bytes>>, kept': seq<seq<Bytes>>)
    requires Holds(a, lost, kept, m) && b.written == a.written
    requires
      || Present(b.disk, m, 0) == Present(a.disk, m, 0)
      || (m in a.disk && Present(a.disk, m, 0) == [a.disk[m]] + Present(b.disk, m, 0))
    ensures Holds(b, lost', kept', m)
    ensures
      || lost' == lost
      || (kept != [] && lost' == lost + [kept[0]] && m in a.disk && a.disk[m] == FileOf(kept[0]))
  {
    hide Present, FileOf;
    if Present(b.disk, m, 0) == Present(a.disk, m, 0) {
      return lost, kept;
    }
    assert Files(kept) == [a.disk[m]] + Present(b.disk, m, 0);
    lost', kept' := lost + [kept[0]], kept[1..];
    assert Files(kept)[0] == a.disk[m];
    assert Files(kept') == Files(kept)[1..];
    ConcatAdd(lost, [kept[0]]);
    ConcatOne(kept[0]);
    Assoc(Concat(lost), kept[0], Concat(kept'));
  }

  /** A rotation step changes nothing that is read, or drops the oldest file whole. */
  lemma {:induction false} RotateHolds(a: World, b: World, lost: seq<seq<Bytes>>, kept: seq<seq<Bytes>>, m: nat)
    returns (lost': seq<seq<Bytes>>, kept': seq<seq<Bytes>>)
    requires Holds(a, lost, kept, m) && b.written == a.written && R.RotationStep(a.disk, b.disk, m)
    ensures Holds(b, lost', kept', m)
    ensures
      || lost' == lost
      || (kept != [] && lost' == lost + [kept[0]] && m in a.disk && a.disk[m] == FileOf(kept[0]))
  {
    R.StepKeepsOrder(a.disk, b.disk, m);
    hide Holds, Present, R.RotationStep;
    lost', kept' := DropHolds(a, b, lost, kept, m);
  }

  lemma {:induction false} DroppedExtends(run: seq<World>, next: World, m: nat, lost: seq<seq<Bytes>>)
    requires DroppedWhole(run, m, lost)
    ensures DroppedWhole(run + [next], m, lost)
  {
    forall i | 0 <= i < |lost| ensures WasOldest(run + [next], m, FileOf(lost[i])) {
      assert WasOldest(run, m, FileOf(lost[i]));
      var j :| 0 <= j < |run| && m in run[j].disk && run[j].disk[m] == FileOf(lost[i]);
      assert (run + [next])[j] == run[j];
    }
  }

  /** Every run: what was written is what was dropped, whole files at a time, and then what is there. */
  lemma {:induction false} RunHolds(run: seq<World>, m: nat) returns (lost: seq<seq<Bytes>>, kept: seq<seq<Bytes>>)
    requires Run(run, m)
    ensures Holds(run[|run| - 1], lost, kept, m) && DroppedWhole(run, m, lost)
    decreases |run|
  {
    var n := |run| - 1;
    if n == 0 {
      lost, kept := [], [];
      NothingPresent(m, 0);
    } else {
      var before := run[..n];
      assert run == before + [run[n]] && before[n - 1] == run[n - 1];
      assert forall i | 0 <= i < n :: before[i] == run[i];
      lost, kept := RunHolds(before, m);
      var a, b := run[n - 1], run[n];
      assert Step(a, b, m);
      hide Holds, R.RotationStep;
      DroppedExtends(before, b, m, lost);
      if r :| WriteStep(a, b, r) {
        kept := AppendHolds(a, b, r, lost, kept, m);
      } else if b.written == a.written && 0 !in a.disk && b.disk == a.disk[0 := []] {
        CreateHolds(a, b, lost, kept, m);
      } else {
        var was := lost;
        lost, kept := RotateHolds(a, b, lost, kept, m);
        assert m in a.disk && lost != was ==> run[n - 1].disk[m] == FileOf(lost[|was|]);
        assert forall i | 0 <= i < |was| :: lost[i] == was[i] && WasOldest(run, m, FileOf(was[i]));
      }
    }
  }

  lemma {:induction false} NothingPresent(m: nat, k: nat)
    ensures Present(map[], m, k) == []
    decreases m + 1 - k
  {
    if k <= m {
      NothingPresent(m, k + 1);
    }
  }

  // ---- What one message does -----------------------------------------------------------

  lemma {:induction false} SamePresent(a: Generations, b: Generations, m: nat, k: nat)
    requires forall n: nat :: R.Get(b, n) == R.Get(a, n)
    ensures Present(b, m, k) == Present(a, m, k)
    decreases m + 1 - k
  {
    if k <= m {
      SamePresent(a, b, m, k + 1);
      assert R.Get(b, k) == R.Get(a, k);
    }
  }

  /** A message written by the sink, rotating first or not, leaves one record more and the rest in place. */
  lemma {:induction false} MessageHolds(a: World, b: World, rotated: bool, r: Bytes, lost: seq<seq<Bytes>>, kept: seq<seq<Bytes>>, m: nat)
    returns (lost': seq<seq<Bytes>>, kept': seq<seq<Bytes>>)
    requires m >= 1 && Holds(a, lost, kept, m) && IsRecord(r) && b.written == a.written + [r]
    requires LogFile.Wrote(LogFile.AsOpened(a.disk), b.disk, rotated, r + [LF], m)
    ensures Holds(b, lost', kept', m)
    ensures
      || lost' == lost
      || (rotated && kept != [] && lost' == lost + [kept[0]] && m in a.disk && a.disk[m] == FileOf(kept[0]))
  {
    hide Holds, Present, FileOf, IsRecord;
    var opened' := World(LogFile.AsOpened(a.disk), a.written);
    if 0 !in a.disk {
      CreateHolds(a, opened', lost, kept, m);
    }
    var active := if rotated then [] else opened'.disk[0];
    assert R.Get(b.disk, 0) == Some(active + (r + [LF]));
    var moved := World(b.disk[0 := active], a.written);
    lost', kept' := lost, kept;
    if rotated {
      var shifted := b.disk - {0};
      ShiftedWithout(opened'.disk, b.disk, r + [LF], m);
      R.ShiftKeepsAllButOldest(opened'.disk, shifted, m);
      assert moved.disk == shifted[0 := []];
      var between := World(shifted, a.written);
      lost', kept' := DropHolds(opened', between, lost, kept, m);
      CreateHolds(between, moved, lost', kept', m);
    } else {
      assert forall n: nat :: R.Get(moved.disk, n) == R.Get(opened'.disk, n);
      SamePresent(opened'.disk, moved.disk, m, 0);
      SameHolds(opened', moved, lost, kept, m);
    }
    assert b.disk == moved.disk[0 := active + (r + [LF])];
    kept' := AppendHolds(moved, b, r, lost', kept', m);
  }

  lemma {:induction false} SameHolds(a: World, b: World, lost: seq<seq<Bytes>>, kept: seq<seq<Bytes>>, m: nat)
    requires Holds(a, lost, kept, m) && b.written == a.written && Present(b.disk, m, 0) == Present(a.disk, m, 0)
    ensures Holds(b, lost, kept, m)
  {
    hide Present, FileOf, Concat;
  }

  lemma {:induction false} ShiftedWithout(a: Generations, b: Generations, line: Bytes, m: nat)
    requires LogFile.Wrote(a, b, true, line, m)
    ensures R.IsShifted(a, b - {0}, m)
  {
    forall k: nat ensures R.Get(b - {0}, k) == R.ShiftedAt(a, k, m) {
      assert k > 0 ==> R.Get(b, k) == R.ShiftedAt(a, k, m);
    }
  }

  // ---- What the viewer reads -------------------------------------------------------------

  function Texts(ls: seq<Line>): (rs: seq<Bytes>)
    ensures |rs| == |ls|
  {
    seq(|ls|, i requires 0 <= i < |ls| => ls[i].text)
  }

  lemma {:induction false} NoCrNothing()
    ensures NoCr([]) && FileOf([]) == []
  {}

  lemma {:induction false} FileOfLast(records: seq<Bytes>)
    requires records != []
    ensures var n := |records| - 1; FileOf(records) == FileOf(records[..n]) + (records[n] + [LF])
  {}

  lemma {:induction false} RecordHas(r: Bytes)
    requires IsRecord(r)
    ensures NoCr(r) && NoLf(r)
  {}

  lemma {:induction false} TextsOne(r: Bytes, offset: nat)
    ensures Texts([Line(r, offset)]) == [r]
  {}

  lemma {:induction false} NoCrConcat(a: Bytes, r: Bytes)
    requires NoCr(a) && NoCr(r)
    ensures NoCr(a + (r + [LF])) && var f := a + (r + [LF]); f != [] && f[|f| - 1] == LF
  {}

  /** A file of records splits into exactly those records. */
  lemma {:induction false} FileLines(records: seq<Bytes>, base: nat)
    requires forall i | 0 <= i < |records| :: IsRecord(records[i])
    ensures Texts(LinesOf(FileOf(records), base)) == records && NoCr(FileOf(records))
    ensures records != [] ==> var f := FileOf(records); f != [] && f[|f| - 1] == LF
    decreases |records|
  {
    hide LinesIn, NextLf, NoCr;
    if records == [] {
      NoCrNothing();
      LinesNone([], 0, base);
    } else {
      var n := |records| - 1;
      FileOfLast(records);
      hide FileOf, LinesOf, Texts, IsRecord;
      FileLines(records[..n], base);
      var head, r := FileOf(records[..n]), records[n];
      RecordHas(r);
      TextEscape.AppendLine(head, r, base);
      TextsAdd(LinesOf(head, base), [Line(r, base + |head|)]);
      TextsOne(r, base + |head|);
      assert records == records[..n] + [r];
      NoCrConcat(head, r);
    }
  }

  lemma {:induction false} AllLinesTail(f: ChainFile, files: seq<ChainFile>, k: nat)
    requires k <= |files|
    ensures AllLines([f] + files, k + 1) == AllLines(files, k)
    decreases |files| - k
  {
    hide LinesIn, AllLines;
    var all := [f] + files;
    if k < |files| {
      AllLinesTail(f, files, k + 1);
      AllStep(files, k);
      AllStep(all, k + 1);
    } else {
      NoMoreLines(all);
      NoMoreLines(files);
    }
  }

  lemma {:induction false} LaidOut(c: Bytes, rest: seq<Bytes>, base: nat)
    ensures Layout([c] + rest, base) == [ChainFile(c, base, |c|)] + Layout(rest, base + |c|)
    ensures AllLines(Layout([c] + rest, base), 0) == LinesOf(c, base) + AllLines(Layout(rest, base + |c|), 0)
  {
    assert ([c] + rest)[1..] == rest;
    var fs := Layout(rest, base + |c|);
    hide LinesIn;
    AllLinesTail(ChainFile(c, base, |c|), fs, 0);
    AllStep([ChainFile(c, base, |c|)] + fs, 0);
  }

  /** Every line of the chain, in order, is every record of its files, in order. */
  lemma {:induction false} ChainLines(groups: seq<seq<Bytes>>, base: nat, maxLine: nat)
    requires forall i | 0 <= i < |Concat(groups)| :: IsRecord(Concat(groups)[i]) && |Concat(groups)[i]| < maxLine
    ensures var fs := Layout(Files(groups), base);
            && Texts(AllLines(fs, 0)) == Concat(groups)
            && NoCrIn(fs)
            && forall i | 0 <= i < |fs| :: AllShort(LinesOf(fs[i].data, fs[i].start), maxLine)
  {
    hide LinesIn, FileOf, AllLines, AllShort;
    if groups == [] {
      NoMoreLines([]);
    } else {
      var g, rest := groups[0], groups[1..];
      var c := FileOf(g);
      ConcatHead(groups);
      assert forall i | 0 <= i < |g| :: g[i] == Concat(groups)[i];
      assert forall i | 0 <= i < |Concat(rest)| :: Concat(rest)[i] == Concat(groups)[|g| + i];
      hide Concat, Layout;
      FileLines(g, base);
      ShortTexts(LinesOf(c, base), maxLine);
      ChainLines(rest, base + |c|, maxLine);
      FilesHead(groups);
      LaidOut(c, Files(rest), base);
      TextsAdd(LinesOf(c, base), AllLines(Layout(Files(rest), base + |c|), 0));
    }
  }

  lemma {:induction false} ConcatHead(groups: seq<seq<Bytes>>)
    requires groups != []
    ensures Concat(groups) == groups[0] + Concat(groups[1..])
  {}

  lemma {:induction false} FilesHead(groups: seq<seq<Bytes>>)
    requires groups != []
    ensures Files(groups) == [FileOf(groups[0])] + Files(groups[1..])
  {}

  lemma {:induction false} TextsAdd(a: seq<Line>, b: seq<Line>)
    ensures Texts(a + b) == Texts(a) + Texts(b)
  {}

  lemma {:induction false} ShortTexts(ls: seq<Line>, maxLine: nat)
    requires forall i | 0 <= i < |Texts(ls)| :: |Texts(ls)[i]| < maxLine
    ensures AllShort(ls, maxLine)
  {
    forall l <- ls ensures |l.text| < maxLine {
      var i :| 0 <= i < |ls| && ls[i] == l;
      assert Texts(ls)[i] == l.text;
    }
  }

  function Selected(rs: seq<Bytes>, f: Bytes -> bool): seq<Bytes> {
    if rs == [] then [] else (if f(rs[0]) then [rs[0]] else []) + Selected(rs[1..], f)
  }

  lemma {:induction false} HitsSelected(ls: seq<Line>, f: Bytes -> bool)
    requires forall i | 0 <= i < |ls| :: ls[i].text != []
    ensures Texts(Hits(ls, f)) == Selected(Texts(ls), f)
  {
    if ls != [] {
      HitsSelected(ls[1..], f);
      assert Texts(ls)[1..] == Texts(ls[1..]);
      var head := if f(ls[0].text) then [ls[0]] else [];
      TextsAdd(head, Hits(ls[1..], f));
    }
  }

  /** The records a finished forward paging of a chain from its start has shown. */
  lemma {:induction false} PagesShow(w: World, lost: seq<seq<Bytes>>, kept: seq<seq<Bytes>>, m: nat, q: Query, xs: seq<Exchange>)
    requires Holds(w, lost, kept, m)
    requires forall i | 0 <= i < |w.written| :: |w.written[i]| < q.maxLine
    requires ForwardRun(ChainOf(w.disk, m), 0, q, xs)
    requires xs != [] && xs[|xs| - 1].page.lines == [] && xs[|xs| - 1].count >= 1
    ensures Texts(Delivered(xs)) == Selected(Concat(kept), q.accepts) && NoCrIn(ChainOf(w.disk, m).files)
  {
    var fc, rs := ChainOf(w.disk, m), Concat(kept);
    forall i | 0 <= i < |rs| ensures IsRecord(rs[i]) && |rs[i]| < q.maxLine {
      assert rs[i] == w.written[|Concat(lost)| + i];
    }
    hide Concat, Selected, Layout, AllLines, LinesIn, ForwardRun, Present, FileOf, After;
    ChainLines(kept, 0, q.maxLine);
    AfterIsAll(fc.files, 0, q.maxLine);
    ForwardComplete(fc, 0, q, xs);
    var ls := AllLines(fc.files, 0);
    forall i | 0 <= i < |ls| ensures ls[i].text != [] {
      assert Texts(ls)[i] == rs[i];
    }
    HitsSelected(ls, q.accepts);
  }

  /**
   End to end. After any run, paging the viewer's chain from its start, with any page sizes and
   budgets, shows exactly the matching records of a suffix of those written, in the order they were
   written; the records before it were in generations dropped whole.
   */
  lemma {:induction false} PagesShowASuffix(run: seq<World>, m: nat, q: Query, xs: seq<Exchange>)
    requires Run(run, m) && m >= 1
    requires var w := run[|run| - 1];
             && (forall i | 0 <= i < |w.written| :: |w.written[i]| < q.maxLine)
             && ForwardRun(ChainOf(w.disk, m), 0, q, xs)
    requires xs != [] && xs[|xs| - 1].page.lines == [] && xs[|xs| - 1].count >= 1
    ensures var w := run[|run| - 1];
            exists lost, kept | Holds(w, lost, kept, m) ::
              && w.written == Concat(lost) + Concat(kept) && DroppedWhole(run, m, lost)
              && Texts(Delivered(xs)) == Selected(Concat(kept), q.accepts)
  {
    var lost, kept := RunHolds(run, m);
    hide ForwardRun, Delivered, Selected, Concat, DroppedWhole;
    PagesShow(run[|run| - 1], lost, kept, m, q, xs);
  }

  // ---- Offsets ---------------------------------------------------------------------------

  /** The same lines, d bytes further on. */
  function Moved(ls: seq<Line>, d: nat): (r: seq<Line>)
    ensures |r| == |ls|
  {
    seq(|ls|, i requires 0 <= i < |ls| => Line(ls[i].text, ls[i].offset + d))
  }

  lemma {:induction false} MovedAdd(a: seq<Line>, b: seq<Line>, d: nat)
    ensures Moved(a + b, d) == Moved(a, d) + Moved(b, d)
  {}

  lemma {:induction false} LinesMoved(b: Bytes, lo: nat, hi: nat, base: nat, d: nat)
    requires lo <= hi <= |b|
    ensures LinesIn(b, lo, hi, base + d) == Moved(LinesIn(b, lo, hi, base), d)
    decreases hi - lo
  {
    hide NextLf, LinesIn;
    if lo == hi {
      LinesNone(b, lo, base);
      LinesNone(b, lo, base + d);
    } else {
      LinesStep(b, lo, hi, base);
      LinesStep(b, lo, hi, base + d);
      var i := NextLf(b, lo, hi);
      if i < hi {
        LinesMoved(b, i + 1, hi, base, d);
        MovedAdd([Line(b[lo..i], base + lo)], LinesIn(b, i + 1, hi, base), d);
      }
    }
  }

  lemma {:induction false} LayoutMoved(contents: seq<Bytes>, base: nat, d: nat)
    ensures AllLines(Layout(contents, base + d), 0) == Moved(AllLines(Layout(contents, base), 0), d)
  {
    hide LinesIn, Layout, AllLines;
    if contents == [] {
      NoLayout(base);
      NoLayout(base + d);
    } else {
      var c, rest := contents[0], contents[1..];
      assert contents == [c] + rest;
      LayoutMoved(rest, base + |c|, d);
      LaidOut(c, rest, base);
      LaidOut(c, rest, base + d);
      LinesMoved(c, 0, |c|, base, d);
      assert base + |c| + d == base + d + |c|;
    }
  }

  lemma {:induction false} NoLayout(base: nat)
    ensures AllLines(Layout([], base), 0) == []
  {}

  /** The bytes a step takes off the front of the chain: those of the oldest generation, when it goes. */
  function DroppedBytes(a: Generations, b: Generations, m: nat): nat {
    if m in a && m !in b then |a[m]| else 0
  }

  /**
   A rotation step that drops nothing leaves the chain, and so every offset, as it was; one that drops
   a file takes its lines off the front and moves every other line down by exactly that file's size.
   */
  lemma {:induction false} RotationAndOffsets(a: Generations, b: Generations, m: nat)
    requires R.RotationStep(a, b, m)
    ensures var d := DroppedBytes(a, b, m);
            && ChainOf(a, m).total == d + ChainOf(b, m).total
            && (d == 0 ==> ChainOf(b, m) == ChainOf(a, m))
            && (d > 0 ==>
                  AllLines(ChainOf(a, m).files, 0) == LinesOf(a[m], 0) + Moved(AllLines(ChainOf(b, m).files, 0), d))
  {
    OldestGoes(a, b, m);
    hide R.RotationStep, Present, LinesIn;
    if DroppedBytes(a, b, m) > 0 {
      var rest := Present(b, m, 0);
      LaidOut(a[m], rest, 0);
      LayoutMoved(rest, 0, |a[m]|);
      assert ([a[m]] + rest)[1..] == rest;
    }
  }

  lemma {:induction false} OldestGoes(a: Generations, b: Generations, m: nat)
    requires R.RotationStep(a, b, m)
    ensures if DroppedBytes(a, b, m) > 0 then Present(a, m, 0) == [a[m]] + Present(b, m, 0)
            else Present(b, m, 0) == Present(a, m, 0)
  {
    if m in a && b == a - {m} {
      R.DeleteDropsOldest(a, m, 0);
    } else {
      var n: nat :| n < m && n in a && n + 1 !in a && b == R.Renamed(a, n, n + 1);
      R.RenameKeepsOrder(a, n, m, 0);
    }
  }
}
