/**
 Appends that fail part-way. The first bytes of a record stay in the file, and after the sink has
 reopened it the next record goes right behind them: the viewer reads the two as one line. This says
 what becomes of the other records.
 */
module PartialWrites {
  import opened Bytes
  import opened Lines
  import opened Chain
  import opened ForwardRead
  import opened Paging
  import opened EndToEnd
  import LogFile
  import R = Rotation

  /** What one append leaves: a record with its LF, or some of its first bytes. */
  ghost predicate IsPiece(p: Bytes) {
    exists r: Bytes, n: nat :: IsRecord(r) && 0 < n <= |r| + 1 && p == (r + [LF])[..n]
  }

  predicate Ends(p: Bytes) {
    p != [] && p[|p| - 1] == LF
  }

  lemma {:induction false} PieceHas(p: Bytes)
    requires IsPiece(p)
    ensures p != [] && NoCr(p) && (Ends(p) ==> |p| > 1)
    ensures forall i | 0 <= i < |p| :: p[i] == LF ==> i == |p| - 1
  {
    var r, n :| IsRecord(r) && 0 < n <= |r| + 1 && p == (r + [LF])[..n];
    forall i | 0 <= i < |p| ensures p[i] != CR && (p[i] == LF ==> i == |r|) {
      assert p[i] == (r + [LF])[i];
    }
  }

  /** The directory of one chain, and everything appended to it so far. */
  datatype Log = Log(disk: Generations, pieces: seq<Bytes>)

  ghost predicate PieceStep(a: Log, b: Log, p: Bytes) {
    IsPiece(p) && b.pieces == a.pieces + [p] && R.AppendStep(a.disk, b.disk, p)
  }

  /** An append that writes anything at all, the active file created, or one step of a rotation. */
  ghost predicate AnyStep(a: Log, b: Log, m: nat) {
    || (exists p :: PieceStep(a, b, p))
    || (b.pieces == a.pieces && 0 !in a.disk && b.disk == a.disk[0 := []])
    || (b.pieces == a.pieces && R.RotationStep(a.disk, b.disk, m))
  }

  ghost predicate AnyRun(run: seq<Log>, m: nat) {
    && run != [] && run[0] == Log(map[], [])
    && forall i | 0 < i < |run| :: AnyStep(run[i - 1], run[i], m)
  }

  /** The append of a record that fails, or does not, is such a step, or it changed nothing. */
  lemma {:induction false} AppendIsPiece(a: Generations, b: Generations, r: Bytes)
    requires IsRecord(r) && R.PartAppended(a, b, r + [LF])
    ensures b == a || exists p :: IsPiece(p) && R.AppendStep(a, b, p)
  {
    var n :| 0 <= n <= |r + [LF]| && b == a[0 := a[0] + (r + [LF])[..n]];
    if n > 0 {
      var p := (r + [LF])[..n];
      assert IsPiece(p) && R.AppendStep(a, b, p);
    } else {
      assert a[0] + (r + [LF])[..0] == a[0];
    }
  }

  // ---- What the files hold ---------------------------------------------------------------

  function Joined(groups: seq<seq<Bytes>>): (files: seq<Bytes>)
    ensures |files| == |groups|
  {
    seq(|groups|, i requires 0 <= i < |groups| => Flatten(groups[i]))
  }

  ghost predicate AllPieces(ps: seq<Bytes>) {
    forall i | 0 <= i < |ps| :: IsPiece(ps[i])
  }

  /** Everything appended, cut up by file: the files dropped, oldest first, then those that are there. */
  ghost predicate Keeps(w: Log, lost: seq<seq<Bytes>>, kept: seq<seq<Bytes>>, m: nat) {
    && w.pieces == Concat(lost) + Concat(kept)
    && AllPieces(w.pieces)
    && Present(w.disk, m, 0) == Joined(kept)
    && forall i | 0 <= i < |kept| :: kept[i] != []
  }

  lemma {:induction false} JoinedAdd(groups: seq<seq<Bytes>>, g: seq<Bytes>)
    ensures Joined(groups + [g]) == Joined(groups) + [Flatten(g)]
  {}

  lemma {:induction false} FlattenAdd(g: seq<Bytes>, p: Bytes)
    ensures Flatten(g + [p]) == Flatten(g) + p && Flatten([p]) == p
  {
    LogFile.FlattenAppend(g, [p]);
    assert Flatten([]) == [];
    assert [p][1..] == [] && p + [] == p;
  }

  lemma {:induction false} AllPiecesAdd(ps: seq<Bytes>, p: Bytes)
    requires AllPieces(ps) && IsPiece(p)
    ensures AllPieces(ps + [p])
  {}

  lemma {:induction false} NewestExtended(older: seq<seq<Bytes>>, g: seq<Bytes>, p: Bytes)
    ensures Joined(older + [g]) == Joined(older) + [Flatten(g)]
    ensures Joined(older + [g + [p]]) == Joined(older) + [Flatten(g) + p]
    ensures Concat(older + [g + [p]]) == Concat(older + [g]) + [p]
  {
    hide Flatten, Concat;
    JoinedAdd(older, g);
    JoinedAdd(older, g + [p]);
    FlattenAdd(g, p);
    ConcatAdd(older, [g]);
    ConcatAdd(older, [g + [p]]);
    ConcatOne(g);
    ConcatOne(g + [p]);
    Assoc(Concat(older), g, [p]);
  }

  lemma {:induction false} SameEnds(a: seq<Bytes>, x: Bytes, b: seq<Bytes>, y: Bytes)
    requires a + [x] == b + [y]
    ensures a == b && x == y
  {
    assert (a + [x])[..|a|] == a && (b + [y])[..|b|] == b;
    assert (a + [x])[|a|] == x && (b + [y])[|b|] == y;
  }

  lemma {:induction false} AppendPresent(a: Generations, b: Generations, p: Bytes, m: nat)
    requires R.AppendStep(a, b, p) && p != []
    ensures Present(b, m, 0) == Present(a, m, 1) + [(if 0 in a then a[0] else []) + p]
  {
    PresentAbove(a, b, m, 1);
    PresentActive(b, m);
    hide Present;
  }

  /** What is appended extends the newest file, or starts a new one. */
  lemma {:induction false} AppendKeeps(a: Log, b: Log, p: Bytes, lost: seq<seq<Bytes>>, kept: seq<seq<Bytes>>, m: nat)
    returns (kept': seq<seq<Bytes>>)
    requires Keeps(a, lost, kept, m) && PieceStep(a, b, p)
    ensures Keeps(b, lost, kept', m)
  {
    PieceHas(p);
    AllPiecesAdd(a.pieces, p);
    AppendPresent(a.disk, b.disk, p, m);
    PresentActive(a.disk, m);
    hide Present, Flatten, Concat, AllPieces, IsPiece, R.AppendStep;
    kept' := if 0 in a.disk && a.disk[0] != [] then ExtendKept(kept, p) else kept + [[p]];
    if 0 in a.disk && a.disk[0] != [] {
      var older := Present(a.disk, m, 1);
      assert |Joined(kept)| == |older| + 1;
      ExtendJoined(older, a.disk[0], kept, p);
    } else {
      var empty: Bytes := [];
      assert empty + p == p;
      JoinedAdd(kept, [p]);
      FlattenAdd([], p);
      ConcatAdd(kept, [[p]]);
      ConcatOne([p]);
    }
    Assoc(Concat(lost), Concat(kept), [p]);
  }

  function ExtendKept(kept: seq<seq<Bytes>>, p: Bytes): seq<seq<Bytes>> {
    if kept == [] then [[p]] else kept[..|kept| - 1] + [kept[|kept| - 1] + [p]]
  }

  lemma {:induction false} ExtendJoined(older: seq<Bytes>, active: Bytes, kept: seq<seq<Bytes>>, p: Bytes)
    requires kept != [] && Joined(kept) == older + [active]
    ensures Joined(ExtendKept(kept, p)) == older + [active + p]
    ensures Concat(ExtendKept(kept, p)) == Concat(kept) + [p]
  {
    hide Joined, Concat, Flatten;
    var n := |kept| - 1;
    var first := kept[..n];
    assert kept == first + [kept[n]];
    NewestExtended(first, kept[n], p);
    SameEnds(older, active, Joined(first), Flatten(kept[n]));
  }

  lemma {:induction false} CreateKeeps(a: Log, b: Log, lost: seq<seq<Bytes>>, kept: seq<seq<Bytes>>, m: nat)
    requires Keeps(a, lost, kept, m) && b.pieces == a.pieces && 0 !in a.disk && b.disk == a.disk[0 := []]
    ensures Keeps(b, lost, kept, m)
  {
    hide Present, AllPieces, Concat, Flatten;
    PresentAbove(a.disk, b.disk, m, 1);
    PresentActive(a.disk, m);
    PresentActive(b.disk, m);
  }

  lemma {:induction false} RotateKeeps(a: Log, b: Log, lost: seq<seq<Bytes>>, kept: seq<seq<Bytes>>, m: nat)
    returns (lost': seq<seq<Bytes>>, kept': seq<seq<Bytes>>)
    requires Keeps(a, lost, kept, m) && b.pieces == a.pieces && R.RotationStep(a.disk, b.disk, m)
    ensures Keeps(b, lost', kept', m)
    ensures
      || lost' == lost
      || (kept != [] && lost' == lost + [kept[0]] && m in a.disk && a.disk[m] == Flatten(kept[0]))
  {
    R.StepKeepsOrder(a.disk, b.disk, m);
    hide Present, Flatten, R.RotationStep, AllPieces;
    if Present(b.disk, m, 0) == Present(a.disk, m, 0) {
      return lost, kept;
    }
    assert Joined(kept) == [a.disk[m]] + Present(b.disk, m, 0);
    lost', kept' := lost + [kept[0]], kept[1..];
    assert Joined(kept)[0] == a.disk[m];
    assert Joined(kept') == Joined(kept)[1..];
    ConcatAdd(lost, [kept[0]]);
    ConcatOne(kept[0]);
    Assoc(Concat(lost), kept[0], Concat(kept'));
  }

  ghost predicate WasWhole(run: seq<Log>, m: nat, file: Bytes) {
    exists j | 0 <= j < |run| :: m in run[j].disk && run[j].disk[m] == file
  }

  /** Every dropped file was, whole, the oldest generation at some point of the run. */
  ghost predicate LostWhole(run: seq<Log>, m: nat, lost: seq<seq<Bytes>>) {
    forall i | 0 <= i < |lost| :: WasWhole(run, m, Flatten(lost[i]))
  }

  lemma {:induction false} LostExtends(run: seq<Log>, next: Log, m: nat, lost: seq<seq<Bytes>>)
    requires LostWhole(run, m, lost)
    ensures LostWhole(run + [next], m, lost)
  {
    forall i | 0 <= i < |lost| ensures WasWhole(run + [next], m, Flatten(lost[i])) {
      assert WasWhole(run, m, Flatten(lost[i]));
      var j :| 0 <= j < |run| && m in run[j].disk && run[j].disk[m] == Flatten(lost[i]);
      assert (run + [next])[j] == run[j];
    }
  }

  /** Every run, failed appends and aborted rotations included: only whole files go, oldest first. */
  lemma {:induction false} AnyRunKeeps(run: seq<Log>, m: nat) returns (lost: seq<seq<Bytes>>, kept: seq<seq<Bytes>>)
    requires AnyRun(run, m)
    ensures Keeps(run[|run| - 1], lost, kept, m) && LostWhole(run, m, lost)
    decreases |run|
  {
    var n := |run| - 1;
    if n == 0 {
      lost, kept := [], [];
      NothingPresent(m, 0);
    } else {
      var before := run[..n];
      assert run == before + [run[n]] && before[n - 1] == run[n - 1];
      assert forall i | 0 <= i < n :: before[i] == run[i];
      lost, kept := AnyRunKeeps(before, m);
      var a, b := run[n - 1], run[n];
      assert AnyStep(a, b, m);
      hide Keeps, R.RotationStep, Flatten;
      LostExtends(before, b, m, lost);
      if p :| PieceStep(a, b, p) {
        kept := AppendKeeps(a, b, p, lost, kept, m);
      } else if b.pieces == a.pieces && 0 !in a.disk && b.disk == a.disk[0 := []] {
        CreateKeeps(a, b, lost, kept, m);
      } else {
        var was := lost;
        lost, kept := RotateKeeps(a, b, lost, kept, m);
        assert lost != was ==> run[n - 1].disk[m] == Flatten(lost[|was|]);
        assert forall i | 0 <= i < |was| :: lost[i] == was[i] && WasWhole(run, m, Flatten(was[i]));
      }
    }
  }

  // ---- What is read of them ----------------------------------------------------------------

  /** The lines of a file, from what was appended to it: what failed is glued to what came next. */
  function Read(pieces: seq<Bytes>, pending: Bytes): seq<Bytes> {
    if pieces == [] then if pending == [] then [] else [pending]
    else
      var p := pieces[0];
      if Ends(p) then [pending + p[..|p| - 1]] + Read(pieces[1..], []) else Read(pieces[1..], pending + p)
  }

  function ReadAll(groups: seq<seq<Bytes>>): seq<Bytes> {
    if groups == [] then [] else Read(groups[0], []) + ReadAll(groups[1..])
  }

  lemma {:induction false} ReadStep(pieces: seq<Bytes>, pending: Bytes)
    requires pieces != []
    ensures var p := pieces[0];
            Read(pieces, pending) ==
              if Ends(p) then [pending + p[..|p| - 1]] + Read(pieces[1..], []) else Read(pieces[1..], pending + p)
    ensures Flatten(pieces) == pieces[0] + Flatten(pieces[1..])
  {}

  /** Splitting the bytes and reading what was appended are the same. */
  lemma {:induction false} ReadIsLines(b: Bytes, lo: nat, base: nat, pieces: seq<Bytes>, pending: Bytes)
    requires lo <= |b| && b[lo..] == pending + Flatten(pieces) && NoLf(pending) && AllPieces(pieces)
    ensures Texts(LinesIn(b, lo, |b|, base)) == Read(pieces, pending)
    decreases |pieces|
  {
    hide IsPiece, NextLf, LinesIn;
    if pieces == [] {
      LastPending(b, lo, base, pending);
    } else {
      var p, rest := pieces[0], pieces[1..];
      PieceHas(p);
      ReadStep(pieces, pending);
      hide Flatten, Read, Texts;
      Assoc(pending, p, Flatten(rest));
      if Ends(p) {
        var at := lo + |pending| + |p| - 1;
        WholePiece(b, lo, at, pending, p, Flatten(rest));
        assert [] + Flatten(rest) == Flatten(rest);
        ReadIsLines(b, at + 1, base, rest, []);
        FirstText(b, lo, at, base);
      } else {
        ReadIsLines(b, lo, base, rest, pending + p);
      }
    }
  }

  lemma {:induction false} FirstText(b: Bytes, lo: nat, at: nat, base: nat)
    requires lo <= at < |b| && NextLf(b, lo, |b|) == at
    ensures Texts(LinesIn(b, lo, |b|, base)) == [b[lo..at]] + Texts(LinesIn(b, at + 1, |b|, base))
  {
    hide NextLf, LinesIn, Texts;
    LinesStep(b, lo, |b|, base);
    TextsAdd([Line(b[lo..at], base + lo)], LinesIn(b, at + 1, |b|, base));
    TextsOne(b[lo..at], base + lo);
  }

  lemma {:induction false} LastPending(b: Bytes, lo: nat, base: nat, pending: Bytes)
    requires lo <= |b| && b[lo..] == pending + Flatten([]) && NoLf(pending)
    ensures Texts(LinesIn(b, lo, |b|, base)) == Read([], pending)
  {
    assert b[lo..] == pending;
    if pending == [] {
      LinesNone(b, lo, base);
    } else {
      assert forall k | lo <= k < |b| :: b[k] == pending[k - lo];
      assert NextLf(b, lo, |b|) == |b| && b[lo..|b|] == pending;
    }
  }

  lemma {:induction false} WholePiece(b: Bytes, lo: nat, at: nat, pending: Bytes, p: Bytes, rest: Bytes)
    requires lo <= |b| && b[lo..] == pending + (p + rest) && NoLf(pending) && Ends(p)
    requires forall i | 0 <= i < |p| :: p[i] == LF ==> i == |p| - 1
    requires at == lo + |pending| + |p| - 1
    ensures at < |b| && NextLf(b, lo, |b|) == at && b[lo..at] == pending + p[..|p| - 1] && b[at + 1..] == rest
  {
    var s := pending + (p + rest);
    assert forall k | lo <= k < |b| :: b[k] == s[k - lo];
    NextLfIs(b, lo, at, |b|);
    assert s[..at - lo] == pending + p[..|p| - 1];
    assert s[at - lo + 1..] == rest;
    assert b[lo..at] == b[lo..][..at - lo];
    assert b[at + 1..] == b[lo..][at + 1 - lo..];
  }

  /** No line read is empty. */
  lemma {:induction false} ReadNonEmpty(pieces: seq<Bytes>, pending: Bytes)
    requires AllPieces(pieces)
    ensures forall i | 0 <= i < |Read(pieces, pending)| :: Read(pieces, pending)[i] != []
    decreases |pieces|
  {
    hide IsPiece;
    if pieces != [] {
      PieceHas(pieces[0]);
      ReadNonEmpty(pieces[1..], if Ends(pieces[0]) then [] else pending + pieces[0]);
    }
  }

  lemma {:induction false} PiecesNoCr(pieces: seq<Bytes>)
    requires AllPieces(pieces)
    ensures NoCr(Flatten(pieces)) && (pieces != [] ==> Flatten(pieces) != [])
  {
    hide IsPiece;
    if pieces != [] {
      PieceHas(pieces[0]);
      PiecesNoCr(pieces[1..]);
    }
  }

  ghost predicate AllGroups(groups: seq<seq<Bytes>>) {
    forall i | 0 <= i < |groups| :: AllPieces(groups[i])
  }

  /** Every line of the chain, in order. */
  lemma {:induction false} ChainReads(groups: seq<seq<Bytes>>, base: nat, maxLine: nat)
    requires AllGroups(groups) && forall i | 0 <= i < |ReadAll(groups)| :: |ReadAll(groups)[i]| < maxLine
    ensures var fs := Layout(Joined(groups), base);
            && Texts(AllLines(fs, 0)) == ReadAll(groups) && NoCrIn(fs)
            && (forall i | 0 <= i < |fs| :: AllShort(LinesOf(fs[i].data, fs[i].start), maxLine))
            && forall i | 0 <= i < |ReadAll(groups)| :: ReadAll(groups)[i] != []
  {
    hide LinesIn, AllLines, AllShort, AllPieces, Read, Flatten;
    if groups == [] {
      NoMoreLines([]);
    } else {
      var g, rest := groups[0], groups[1..];
      var c, r := Flatten(g), Read(g, []);
      assert ReadAll(groups) == r + ReadAll(rest);
      assert forall i | 0 <= i < |r| :: r[i] == ReadAll(groups)[i];
      assert forall i | 0 <= i < |ReadAll(rest)| :: ReadAll(rest)[i] == ReadAll(groups)[|r| + i];
      hide ReadAll, Layout;
      assert AllPieces(g) && c[0..] == [] + c;
      ReadIsLines(c, 0, base, g, []);
      ReadNonEmpty(g, []);
      PiecesNoCr(g);
      ShortTexts(LinesOf(c, base), maxLine);
      ChainReads(rest, base + |c|, maxLine);
      assert Joined(groups) == [c] + Joined(rest);
      LaidOut(c, Joined(rest), base);
      TextsAdd(LinesOf(c, base), AllLines(Layout(Joined(rest), base + |c|), 0));
    }
  }

  // ---- What is intact -----------------------------------------------------------------------

  /** The records appended in full, at the start of a file or behind another such record. */
  function Intact(pieces: seq<Bytes>, clean: bool): seq<Bytes> {
    if pieces == [] then []
    else
      var p := pieces[0];
      (if clean && Ends(p) then [p[..|p| - 1]] else []) + Intact(pieces[1..], Ends(p))
  }

  function IntactAll(groups: seq<seq<Bytes>>): seq<Bytes> {
    if groups == [] then [] else Intact(groups[0], true) + IntactAll(groups[1..])
  }

  /** How many appends failed part-way. */
  function Failed(pieces: seq<Bytes>): nat {
    if pieces == [] then 0 else (if Ends(pieces[0]) then 0 else 1) + Failed(pieces[1..])
  }

  /** a in order among b. */
  ghost predicate Within(a: seq<Bytes>, b: seq<Bytes>)
    decreases |b|
  {
    a == [] || (b != [] && (Within(a, b[1..]) || (a[0] == b[0] && Within(a[1..], b[1..]))))
  }

  lemma {:induction false} WithinLater(a: seq<Bytes>, x: Bytes, b: seq<Bytes>)
    requires Within(a, b)
    ensures Within(a, [x] + b) && Within([x] + a, [x] + b)
  {
    assert ([x] + b)[1..] == b && ([x] + a)[1..] == a;
  }

  lemma {:induction false} WithinConcat(a: seq<Bytes>, b: seq<Bytes>, c: seq<Bytes>, d: seq<Bytes>)
    requires Within(a, b) && Within(c, d)
    ensures Within(a + c, b + d)
    decreases |b|
  {
    if b == [] {
      assert a + c == c && b + d == d;
    } else {
      assert b + d == [b[0]] + (b[1..] + d);
      if Within(a, b[1..]) {
        WithinConcat(a, b[1..], c, d);
        WithinLater(a + c, b[0], b[1..] + d);
      } else {
        WithinConcat(a[1..], b[1..], c, d);
        WithinLater(a[1..] + c, b[0], b[1..] + d);
        assert a + c == [b[0]] + (a[1..] + c);
      }
    }
  }

  lemma {:induction false} WithinSelected(a: seq<Bytes>, b: seq<Bytes>, f: Bytes -> bool)
    requires Within(a, b)
    ensures Within(Selected(a, f), Selected(b, f))
    decreases |b|
  {
    if a != [] {
      var rest := Selected(b[1..], f);
      assert Selected(b, f) == if f(b[0]) then [b[0]] + rest else rest;
      if Within(a, b[1..]) {
        WithinSelected(a, b[1..], f);
        WithinLater(Selected(a, f), b[0], rest);
      } else {
        WithinSelected(a[1..], b[1..], f);
        WithinLater(Selected(a[1..], f), b[0], rest);
        assert Selected(a, f) == if f(b[0]) then [b[0]] + Selected(a[1..], f) else Selected(a[1..], f);
      }
    }
  }

  lemma {:induction false} SelectedAdd(a: seq<Bytes>, b: seq<Bytes>, f: Bytes -> bool)
    ensures Selected(a + b, f) == Selected(a, f) + Selected(b, f)
  {
    if a == [] {
      assert a + b == b;
    } else {
      assert (a + b)[1..] == a[1..] + b;
      SelectedAdd(a[1..], b, f);
      var head := if f(a[0]) then [a[0]] else [];
      Assoc(head, Selected(a[1..], f), Selected(b, f));
    }
  }

  lemma {:induction false} SelectedOne(x: Bytes, f: Bytes -> bool)
    ensures Selected([x], f) == if f(x) then [x] else []
  {
    assert [x][1..] == [] && Selected([], f) == [];
  }

  /** The intact records are all read, in order; each failed append adds at most one line to them. */
  lemma {:induction false} IntactRead(pieces: seq<Bytes>, pending: Bytes, f: Bytes -> bool)
    requires forall i | 0 <= i < |pieces| :: pieces[i] != []
    ensures Within(Intact(pieces, pending == []), Read(pieces, pending))
    ensures |Selected(Read(pieces, pending), f)|
         <= |Selected(Intact(pieces, pending == []), f)| + Failed(pieces) + (if pending == [] then 0 else 1)
    decreases |pieces|
  {
    if pieces == [] {
      SelectedOne(pending, f);
    } else {
      var p, rest := pieces[0], pieces[1..];
      if Ends(p) {
        var line, r := pending + p[..|p| - 1], Intact(rest, true);
        IntactRead(rest, [], f);
        WithinLater(r, line, Read(rest, []));
        assert pending == [] ==> line == p[..|p| - 1];
        assert Intact(pieces, pending == []) == if pending == [] then [line] + r else r;
        SelectedAdd([line], Read(rest, []), f);
        SelectedAdd([line], r, f);
        SelectedOne(line, f);
      } else {
        IntactRead(rest, pending + p, f);
        assert Intact(pieces, pending == []) == Intact(rest, false);
      }
    }
  }

  lemma {:induction false} IntactReadAll(groups: seq<seq<Bytes>>, f: Bytes -> bool)
    requires AllGroups(groups)
    ensures Within(IntactAll(groups), ReadAll(groups))
    ensures |Selected(ReadAll(groups), f)| <= |Selected(IntactAll(groups), f)| + Failed(Concat(groups))
  {
    if groups == [] {
      return;
    }
    var g, rest := groups[0], groups[1..];
    assert AllPieces(g) && IntactAll(groups) == Intact(g, true) + IntactAll(rest);
    assert ReadAll(groups) == Read(g, []) + ReadAll(rest) && Concat(groups) == g + Concat(rest);
    hide AllPieces, Read, Intact, Failed, Within, Selected, ReadAll, IntactAll, Concat;
    PiecesNonEmpty(g);
    IntactRead(g, [], f);
    IntactReadAll(rest, f);
    WithinConcat(Intact(g, true), Read(g, []), IntactAll(rest), ReadAll(rest));
    FailedAdd(g, Concat(rest));
    SelectedAdd(Read(g, []), ReadAll(rest), f);
    SelectedAdd(Intact(g, true), IntactAll(rest), f);
  }

  lemma {:induction false} PiecesNonEmpty(pieces: seq<Bytes>)
    requires AllPieces(pieces)
    ensures forall i | 0 <= i < |pieces| :: pieces[i] != []
  {
    forall i | 0 <= i < |pieces| ensures pieces[i] != [] {
      PieceHas(pieces[i]);
    }
  }

  lemma {:induction false} FailedAdd(a: seq<Bytes>, b: seq<Bytes>)
    ensures Failed(a + b) == Failed(a) + Failed(b)
  {
    if a == [] {
      assert a + b == b;
    } else {
      assert (a + b)[1..] == a[1..] + b;
      FailedAdd(a[1..], b);
    }
  }

  // ---- What the viewer shows ----------------------------------------------------------------

  lemma {:induction false} KeptPieces(lost: seq<seq<Bytes>>, kept: seq<seq<Bytes>>)
    requires AllPieces(Concat(lost) + Concat(kept))
    ensures AllGroups(kept)
  {
    hide IsPiece, Concat;
    var all := Concat(lost) + Concat(kept);
    InConcat(Concat(lost), Concat(kept));
    forall i | 0 <= i < |kept| ensures AllPieces(kept[i]) {
      InGroups(kept, i);
      assert forall j | 0 <= j < |kept[i]| :: kept[i][j] in all;
    }
  }

  /**
   End to end, failures included. After any run of appends, of which any may fail part-way, and of
   rotation steps, paging the chain from its start shows exactly the matching lines of the files left,
   where a fragment is glued to what followed it: every matching record that is intact, in order, and at
   most one line more for each append that failed. Nothing is lost but the oldest files, whole.
   */
  lemma {:induction false} PagesSurviveFailures(run: seq<Log>, m: nat, q: Query, xs: seq<Exchange>)
    returns (lost: seq<seq<Bytes>>, kept: seq<seq<Bytes>>)
    requires AnyRun(run, m) && ForwardRun(ChainOf(run[|run| - 1].disk, m), 0, q, xs)
    requires xs != [] && xs[|xs| - 1].page.lines == [] && xs[|xs| - 1].count >= 1
    ensures Keeps(run[|run| - 1], lost, kept, m) && LostWhole(run, m, lost)
    ensures (forall i | 0 <= i < |ReadAll(kept)| :: |ReadAll(kept)[i]| < q.maxLine) ==>
              && Texts(Delivered(xs)) == Selected(ReadAll(kept), q.accepts)
              && Within(Selected(IntactAll(kept), q.accepts), Texts(Delivered(xs)))
              && |Delivered(xs)| <= |Selected(IntactAll(kept), q.accepts)| + Failed(Concat(kept))
              && NoCrIn(ChainOf(run[|run| - 1].disk, m).files)
  {
    lost, kept := AnyRunKeeps(run, m);
    KeptPieces(lost, kept);
    hide AnyRun, Failed, ForwardRun, Delivered, Selected, Concat, LostWhole, Within, AllPieces, ReadAll, IntactAll;
    IntactReadAll(kept, q.accepts);
    if forall i | 0 <= i < |ReadAll(kept)| :: |ReadAll(kept)[i]| < q.maxLine {
      PagesShowRead(run[|run| - 1], lost, kept, m, q, xs);
      WithinSelected(IntactAll(kept), ReadAll(kept), q.accepts);
    }
  }

  lemma {:induction false} PagesShowRead(w: Log, lost: seq<seq<Bytes>>, kept: seq<seq<Bytes>>, m: nat, q: Query, xs: seq<Exchange>)
    requires Keeps(w, lost, kept, m) && AllGroups(kept)
    requires forall i | 0 <= i < |ReadAll(kept)| :: |ReadAll(kept)[i]| < q.maxLine
    requires ForwardRun(ChainOf(w.disk, m), 0, q, xs)
    requires xs != [] && xs[|xs| - 1].page.lines == [] && xs[|xs| - 1].count >= 1
    ensures Texts(Delivered(xs)) == Selected(ReadAll(kept), q.accepts) && NoCrIn(ChainOf(w.disk, m).files)
  {
    var fc := ChainOf(w.disk, m);
    hide Concat, Selected, Layout, AllLines, LinesIn, ForwardRun, Present, Read, ReadAll, After, AllGroups, AllPieces;
    ChainReads(kept, 0, q.maxLine);
    AfterIsAll(fc.files, 0, q.maxLine);
    ForwardComplete(fc, 0, q, xs);
    var ls := AllLines(fc.files, 0);
    forall i | 0 <= i < |ls| ensures ls[i].text != [] {
      assert Texts(ls)[i] == ReadAll(kept)[i];
    }
    HitsSelected(ls, q.accepts);
  }
}
