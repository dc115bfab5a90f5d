/**
 A log file as lines: the trivial reading every read path has to agree with.
 A line carries the logical offset of its first byte.
 */
module Lines {
  import opened Bytes

  datatype Line = Line(text: Bytes, offset: nat)

  /** Index of the first LF of b in [lo, hi), or hi when there is none. */
  function NextLf(b: Bytes, lo: nat, hi: nat): (i: nat)
    requires lo <= hi <= |b|
    ensures lo <= i <= hi
    ensures forall k | lo <= k < i :: b[k] != LF
    ensures i < hi ==> b[i] == LF
    decreases hi - lo
  {
    if lo == hi || b[lo] == LF then lo else NextLf(b, lo + 1, hi)
  }

  /**
   The lines of b[lo..hi], where b[0] has logical offset base. Every LF ends a line; bytes after
   the last LF are one more, unterminated, line.
   */
  function LinesIn(b: Bytes, lo: nat, hi: nat, base: nat): seq<Line>
    requires lo <= hi <= |b|
    decreases hi - lo
  {
    if lo == hi then []
    else
      var i := NextLf(b, lo, hi);
      if i == hi then [Line(b[lo..hi], base + lo)]
      else [Line(b[lo..i], base + lo)] + LinesIn(b, i + 1, hi, base)
  }

  /** As LinesIn, but with the (possibly empty) piece after the last LF always present. */
  function SplitIn(b: Bytes, lo: nat, hi: nat, base: nat): (s: seq<Line>)
    requires lo <= hi <= |b|
    ensures s != []
    decreases hi - lo
  {
    var i := NextLf(b, lo, hi);
    if i == hi then [Line(b[lo..hi], base + lo)]
    else [Line(b[lo..i], base + lo)] + SplitIn(b, i + 1, hi, base)
  }

  /** The lines of a whole file. */
  function LinesOf(b: Bytes, base: nat): seq<Line> {
    LinesIn(b, 0, |b|, base)
  }

  /** A place where a line can begin: the start, the end, or just after an LF. */
  predicate AtLineStart(b: Bytes, p: int) {
    0 <= p <= |b| && (p == 0 || p == |b| || b[p - 1] == LF)
  }

  /** The lines a scanner limited to maxLine bytes delivers: it gives up on the first longer one. */
  function ShortPrefix(ls: seq<Line>, maxLine: nat): (r: seq<Line>)
    ensures r <= ls
  {
    if ls == [] || |ls[0].text| >= maxLine then []
    else [ls[0]] + ShortPrefix(ls[1..], maxLine)
  }

  predicate AllShort(ls: seq<Line>, maxLine: nat) {
    forall l <- ls :: |l.text| < maxLine
  }

  /** b without its trailing run of CR. */
  function TrimCr(b: Bytes): Bytes {
    if b != [] && b[|b| - 1] == CR then TrimCr(b[..|b| - 1]) else b
  }

  /** Drops lines over maxLine bytes and lines starting before since, and trims the others. */
  function Tidy(ls: seq<Line>, maxLine: nat, since: int): seq<Line> {
    if ls == [] then []
    else
      (if |ls[0].text| <= maxLine && !(since >= 0 && ls[0].offset < since)
       then [Line(TrimCr(ls[0].text), ls[0].offset)] else [])
      + Tidy(ls[1..], maxLine, since)
  }

  /** The non-empty lines that match. */
  function Hits(ls: seq<Line>, f: Bytes -> bool): seq<Line> {
    if ls == [] then []
    else (if ls[0].text != [] && f(ls[0].text) then [ls[0]] else []) + Hits(ls[1..], f)
  }

  /** Total size of the texts. */
  function Size(ls: seq<Line>): nat {
    if ls == [] then 0 else |ls[0].text| + Size(ls[1..])
  }

  // ---- Runs: what one read may return -------------------------------------

  /**
   r is the greedy run of ms from its oldest end: at most count lines, at most budget bytes unless
   it is a single line, and not one line shorter than those two limits force it to be.
   */
  ghost predicate IsOldestRun(r: seq<Line>, ms: seq<Line>, count: nat, budget: nat) {
    && r <= ms
    && |r| <= count
    && (|r| <= 1 || Size(r) <= budget)
    && (|r| < count && |r| < |ms| ==> r != [] && Size(r) + |ms[|r|].text| > budget)
  }

  /** The same from the newest end; r stays in oldest-first order. */
  ghost predicate IsNewestRun(r: seq<Line>, ms: seq<Line>, count: nat, budget: nat) {
    && |r| <= |ms|
    && r == ms[|ms| - |r|..]
    && |r| <= count
    && (|r| <= 1 || Size(r) <= budget)
    && (|r| < count && |r| < |ms| ==> r != [] && Size(r) + |ms[|ms| - |r| - 1].text| > budget)
  }

  // ---- Concatenation ------------------------------------------------------

  lemma {:induction false} HitsConcat(a: seq<Line>, b: seq<Line>, f: Bytes -> bool)
    ensures Hits(a + b, f) == Hits(a, f) + Hits(b, f)
  {
    if a == [] {
      assert a + b == b;
    } else {
      assert (a + b)[1..] == a[1..] + b;
      var head := if a[0].text != [] && f(a[0].text) then [a[0]] else [];
      assert Hits(a, f) == head + Hits(a[1..], f);
      assert Hits(a + b, f) == head + Hits(a[1..] + b, f);
      HitsConcat(a[1..], b, f);
      Assoc(head, Hits(a[1..], f), Hits(b, f));
    }
  }

  lemma {:induction false} TidyConcat(a: seq<Line>, b: seq<Line>, maxLine: nat, since: int)
    ensures Tidy(a + b, maxLine, since) == Tidy(a, maxLine, since) + Tidy(b, maxLine, since)
  {
    if a == [] {
      assert a + b == b;
    } else {
      assert (a + b)[1..] == a[1..] + b;
      var head := if |a[0].text| <= maxLine && !(since >= 0 && a[0].offset < since)
                  then [Line(TrimCr(a[0].text), a[0].offset)] else [];
      assert Tidy(a, maxLine, since) == head + Tidy(a[1..], maxLine, since);
      assert Tidy(a + b, maxLine, since) == head + Tidy(a[1..] + b, maxLine, since);
      TidyConcat(a[1..], b, maxLine, since);
      Assoc(head, Tidy(a[1..], maxLine, since), Tidy(b, maxLine, since));
    }
  }

  lemma {:induction false} SizeConcat(a: seq<Line>, b: seq<Line>)
    ensures Size(a + b) == Size(a) + Size(b)
  {
    if a == [] {
      assert a + b == b;
    } else {
      assert (a + b)[1..] == a[1..] + b;
      SizeConcat(a[1..], b);
    }
  }

  // ---- Splitting ----------------------------------------------------------

  /** An LF separates independently: what is before it and what follows split on their own. */
  lemma {:induction false} SplitAt(b: Bytes, lo: nat, p: nat, hi: nat, base: nat)
    requires lo <= p < hi <= |b| && b[p] == LF
    ensures SplitIn(b, lo, hi, base) == SplitIn(b, lo, p, base) + SplitIn(b, p + 1, hi, base)
    decreases p - lo
  {
    hide NextLf, SplitIn;
    var i := NextLf(b, lo, hi);
    SplitStep(b, lo, hi, base);
    SplitStep(b, lo, p, base);
    if i < p {
      NextLfIs(b, lo, i, p);
      SplitAt(b, i + 1, p, hi, base);
      Assoc([Line(b[lo..i], base + lo)], SplitIn(b, i + 1, p, base), SplitIn(b, p + 1, hi, base));
    }
  }

  /** LinesIn is SplitIn without a trailing empty piece. */
  lemma {:induction false} SplitIsLines(b: Bytes, lo: nat, hi: nat, base: nat)
    requires lo <= hi <= |b|
    ensures
      var s := SplitIn(b, lo, hi, base);
      && (s[|s| - 1].text == [] <==> lo == hi || b[hi - 1] == LF)
      && LinesIn(b, lo, hi, base) == if s[|s| - 1].text == [] then s[..|s| - 1] else s
    decreases hi - lo
  {
    hide NextLf, LinesIn, SplitIn;
    SplitStep(b, lo, hi, base);
    var i := NextLf(b, lo, hi);
    if lo == hi {
      LinesNone(b, lo, base);
    } else {
      LinesStep(b, lo, hi, base);
      if i < hi {
        SplitIsLines(b, i + 1, hi, base);
        SplitMore(Line(b[lo..i], base + lo), SplitIn(b, i + 1, hi, base));
      }
    }
  }

  lemma {:induction false} SplitStep(b: Bytes, lo: nat, hi: nat, base: nat)
    requires lo <= hi <= |b|
    ensures
      var i := NextLf(b, lo, hi);
      SplitIn(b, lo, hi, base) ==
      if i == hi then [Line(b[lo..hi], base + lo)] else [Line(b[lo..i], base + lo)] + SplitIn(b, i + 1, hi, base)
  {
    hide NextLf;
  }

  lemma {:induction false} SplitMore(l: Line, s: seq<Line>)
    requires s != []
    ensures ([l] + s)[|s|] == s[|s| - 1] && ([l] + s)[..|s|] == [l] + s[..|s| - 1]
  {}

  /** The first line of a stretch of bytes, and the lines after it. */
  lemma {:induction false} LinesHead(b: Bytes, lo: nat, i: nat, hi: nat, base: nat)
    requires lo <= i < hi <= |b| && b[i] == LF && forall k | lo <= k < i :: b[k] != LF
    ensures LinesIn(b, lo, hi, base) == [Line(b[lo..i], base + lo)] + LinesIn(b, i + 1, hi, base)
  {
    NextLfIs(b, lo, i, hi);
    hide NextLf, LinesIn;
    LinesStep(b, lo, hi, base);
  }

  lemma {:induction false} NextLfIs(b: Bytes, lo: nat, i: nat, hi: nat)
    requires lo <= i < hi <= |b| && b[i] == LF && forall k | lo <= k < i :: b[k] != LF
    ensures NextLf(b, lo, hi) == i
    decreases i - lo
  {
    if lo < i {
      NextLfIs(b, lo + 1, i, hi);
    }
  }

  lemma {:induction false} LinesStep(b: Bytes, lo: nat, hi: nat, base: nat)
    requires lo < hi <= |b|
    ensures
      var i := NextLf(b, lo, hi);
      LinesIn(b, lo, hi, base) ==
      if i == hi then [Line(b[lo..hi], base + lo)] else [Line(b[lo..i], base + lo)] + LinesIn(b, i + 1, hi, base)
  {
    hide NextLf;
  }

  lemma {:induction false} LinesNone(b: Bytes, lo: nat, base: nat)
    requires lo <= |b|
    ensures LinesIn(b, lo, lo, base) == []
  {}

  /** Lines on the two sides of a line start are read independently. */
  lemma {:induction false} LinesAt(b: Bytes, lo: nat, p: nat, hi: nat, base: nat)
    requires lo <= p <= hi <= |b|
    requires p == lo || p == hi || b[p - 1] == LF
    ensures LinesIn(b, lo, hi, base) == LinesIn(b, lo, p, base) + LinesIn(b, p, hi, base)
    decreases p - lo
  {
    if p == lo {
      assert LinesIn(b, lo, p, base) == [];
    } else if p == hi {
      assert LinesIn(b, p, hi, base) == [];
    } else {
      hide LinesIn, NextLf;
      var i := NextLf(b, lo, hi);
      LinesAt(b, i + 1, p, hi, base);
      LinesHead(b, lo, i, hi, base);
      LinesHead(b, lo, i, p, base);
    }
  }

  /** For a read that skips empty lines, SplitIn and LinesIn are the same. */
  lemma {:induction false} SplitHits(b: Bytes, lo: nat, hi: nat, base: nat, maxLine: nat, since: int, f: Bytes -> bool)
    requires lo <= hi <= |b|
    ensures Hits(Tidy(SplitIn(b, lo, hi, base), maxLine, since), f)
         == Hits(Tidy(LinesIn(b, lo, hi, base), maxLine, since), f)
  {
    SplitIsLines(b, lo, hi, base);
    var s := SplitIn(b, lo, hi, base);
    var last := s[|s| - 1];
    if last.text == [] {
      assert s == s[..|s| - 1] + [last];
      TidyConcat(s[..|s| - 1], [last], maxLine, since);
      HitsConcat(Tidy(s[..|s| - 1], maxLine, since), Tidy([last], maxLine, since), f);
    }
  }

  lemma {:induction false} NextLfSame(b: Bytes, lo: nat, hi: nat, c: Bytes, d: int)
    requires lo <= hi <= |b| && 0 <= lo + d && hi + d <= |c|
    requires forall k | lo <= k < hi :: b[k] == c[k + d]
    ensures NextLf(c, lo + d, hi + d) == NextLf(b, lo, hi) + d
    decreases hi - lo
  {
    if lo < hi && b[lo] != LF {
      NextLfSame(b, lo + 1, hi, c, d);
    }
  }

  lemma {:induction false} SliceSame(b: Bytes, lo: nat, hi: nat, c: Bytes, d: int)
    requires lo <= hi <= |b| && 0 <= lo + d && hi + d <= |c|
    requires forall k | lo <= k < hi :: b[k] == c[k + d]
    ensures b[lo..hi] == c[lo + d..hi + d]
  {
    forall j | 0 <= j < hi - lo ensures b[lo..hi][j] == c[lo + d..hi + d][j] {
      assert b[lo + j] == c[lo + j + d];
    }
  }

  /** Equal bytes d places further on give the same lines at the same logical offsets. */
  lemma {:induction false} LinesSame(b: Bytes, lo: nat, hi: nat, base: nat, c: Bytes, d: int, base': nat)
    requires lo <= hi <= |b| && 0 <= lo + d && hi + d <= |c| && base == base' + d
    requires forall k | lo <= k < hi :: b[k] == c[k + d]
    ensures LinesIn(b, lo, hi, base) == LinesIn(c, lo + d, hi + d, base')
    decreases hi - lo
  {
    hide LinesIn, NextLf;
    if lo == hi {
      LinesNone(b, lo, base);
      LinesNone(c, lo + d, base');
    } else {
      var i := NextLf(b, lo, hi);
      NextLfSame(b, lo, hi, c, d);
      SliceSame(b, lo, i, c, d);
      LinesStep(b, lo, hi, base);
      LinesStep(c, lo + d, hi + d, base');
      if i < hi {
        LinesSame(b, i + 1, hi, base, c, d, base');
      }
    }
  }

  // ---- Offsets ------------------------------------------------------------

  /** Lines lie inside the bytes read, one after the other, at least an LF apart. */
  lemma {:induction false} LinesOffsets(b: Bytes, lo: nat, hi: nat, base: nat)
    requires lo <= hi <= |b|
    ensures var ls := LinesIn(b, lo, hi, base);
            && (forall l <- ls :: base + lo <= l.offset < base + hi && l.offset + |l.text| <= base + hi)
            && (forall j, k | 0 <= j < k < |ls| :: ls[j].offset + |ls[j].text| < ls[k].offset)
    decreases hi - lo
  {
    hide LinesIn, NextLf;
    if lo == hi {
      LinesNone(b, lo, base);
    } else {
      LinesStep(b, lo, hi, base);
      var i := NextLf(b, lo, hi);
      if i < hi {
        LinesOffsets(b, i + 1, hi, base);
      }
    }
  }

  ghost predicate AllBelow(ls: seq<Line>, o: nat) {
    forall i | 0 <= i < |ls| :: ls[i].offset < o
  }

  ghost predicate AllFrom(ls: seq<Line>, o: nat) {
    forall i | 0 <= i < |ls| :: ls[i].offset >= o
  }

  lemma {:induction false} AllFromConcat(a: seq<Line>, b: seq<Line>, o: nat)
    requires AllFrom(a, o) && AllFrom(b, o)
    ensures AllFrom(a + b, o)
  {}

  lemma {:induction false} HitsFrom(ls: seq<Line>, f: Bytes -> bool, o: nat)
    requires AllFrom(ls, o)
    ensures AllFrom(Hits(ls, f), o)
  {
    if ls != [] {
      var head := if ls[0].text != [] && f(ls[0].text) then [ls[0]] else [];
      HitsFrom(ls[1..], f, o);
      AllFromConcat(head, Hits(ls[1..], f), o);
    }
  }

  /** Line j of ls, the lines of b[lo..hi], is the bytes at its offset and begins at a line start. */
  ghost predicate LineIs(b: Bytes, lo: nat, hi: nat, base: nat, ls: seq<Line>, j: nat)
    requires j < |ls| && lo <= hi <= |b|
  {
    var l := ls[j]; var p := l.offset - base;
    && lo <= p < hi && p + |l.text| <= hi && l.text == b[p..p + |l.text|]
    && (p == lo || b[p - 1] == LF)
    && ls[..j] == LinesIn(b, lo, p, base) && ls[j..] == LinesIn(b, p, hi, base)
  }

  lemma {:induction false} LineIsLater(
    b: Bytes, lo: nat, i: nat, hi: nat, base: nat, ls: seq<Line>, rest: seq<Line>, j: nat)
    requires lo <= i < hi <= |b| && b[i] == LF && forall k | lo <= k < i :: b[k] != LF
    requires 0 < j <= |rest| && ls == [Line(b[lo..i], base + lo)] + rest && LineIs(b, i + 1, hi, base, rest, j - 1)
    ensures LineIs(b, lo, hi, base, ls, j)
  {
    hide LinesIn;
    LinesHead(b, lo, i, rest[j - 1].offset - base, base);
    assert ls[j] == rest[j - 1];
    assert ls[..j] == [ls[0]] + rest[..j - 1];
    assert ls[j..] == rest[j - 1..];
  }

  /**
   The j-th line is where it says it is: its text is the bytes there, it begins at a line start,
   and the lines before and after it are those on its two sides.
   */
  lemma {:induction false} LineAt(b: Bytes, lo: nat, hi: nat, base: nat, j: nat)
    requires lo <= hi <= |b|
    requires j < |LinesIn(b, lo, hi, base)|
    ensures LineIs(b, lo, hi, base, LinesIn(b, lo, hi, base), j)
    decreases hi - lo
  {
    hide LinesIn, NextLf;
    var ls := LinesIn(b, lo, hi, base);
    if lo == hi {
      LinesNone(b, lo, base);
      assert false;
    }
    LinesStep(b, lo, hi, base);
    var i := NextLf(b, lo, hi);
    if j == 0 {
      LinesNone(b, lo, base);
    } else {
      hide LineIs;
      LineAt(b, i + 1, hi, base, j - 1);
      LineIsLater(b, lo, i, hi, base, ls, LinesIn(b, i + 1, hi, base), j);
    }
  }

  /** The lines before line j are those of the bytes before it. */
  lemma {:induction false} UpToLine(b: Bytes, hi: nat, base: nat, j: nat)
    requires hi <= |b| && j < |LinesIn(b, 0, hi, base)|
    ensures var ls := LinesIn(b, 0, hi, base); var p := ls[j].offset - base;
            0 <= p < hi && ls[..j] == LinesIn(b, 0, p, base)
  {
    hide LinesIn;
    LineAt(b, 0, hi, base, j);
  }

  lemma {:induction false} HitsMembers(ls: seq<Line>, f: Bytes -> bool)
    ensures forall l <- Hits(ls, f) :: l in ls && l.text != [] && f(l.text)
  {
    if ls != [] {
      HitsMembers(ls[1..], f);
    }
  }

  lemma {:induction false} HitsHas(ls: seq<Line>, f: Bytes -> bool, l: Line)
    requires l in ls && l.text != [] && f(l.text)
    ensures l in Hits(ls, f)
  {
    if ls[0] != l {
      HitsHas(ls[1..], f, l);
    }
  }

  /** Starting later in the same bytes makes no line longer. */
  lemma {:induction false} ShortFrom(b: Bytes, lo: nat, p: nat, hi: nat, base: nat, maxLine: nat)
    requires lo <= p <= hi <= |b| && AllShort(LinesIn(b, lo, hi, base), maxLine)
    ensures AllShort(LinesIn(b, p, hi, base), maxLine)
    decreases p - lo
  {
    hide LinesIn, NextLf;
    if lo < p && p < hi {
      LinesStep(b, lo, hi, base);
      var i, ls := NextLf(b, lo, hi), LinesIn(b, lo, hi, base);
      assert ls[0] in ls;
      if p <= i {
        NextLfWithin(b, lo, p, hi);
        LinesStep(b, p, hi, base);
      }
      if i < hi {
        var rest := LinesIn(b, i + 1, hi, base);
        assert forall l <- rest :: l in ls;
        if p > i {
          ShortFrom(b, i + 1, p, hi, base, maxLine);
        }
      }
    } else if p == hi {
      LinesNone(b, hi, base);
    }
  }

  lemma {:induction false} NextLfWithin(b: Bytes, lo: nat, p: nat, hi: nat)
    requires lo <= hi <= |b| && lo <= p <= NextLf(b, lo, hi)
    ensures p <= hi && NextLf(b, p, hi) == NextLf(b, lo, hi)
    decreases p - lo
  {
    if lo < p {
      NextLfWithin(b, lo + 1, p, hi);
    }
  }

  lemma {:induction false} TidyNone(ls: seq<Line>, maxLine: nat, since: int)
    requires since >= 0 && forall l <- ls :: l.offset < since
    ensures Tidy(ls, maxLine, since) == []
  {
    if ls != [] {
      TidyNone(ls[1..], maxLine, since);
    }
  }

  // ---- Runs ---------------------------------------------------------------

  /** The newest run is determined by its definition. */
  lemma {:induction false} NewestRunUnique(r1: seq<Line>, r2: seq<Line>, ms: seq<Line>, count: nat, budget: nat)
    requires IsNewestRun(r1, ms, count, budget) && IsNewestRun(r2, ms, count, budget)
    ensures r1 == r2
  {
    if |r1| < |r2| {
      NewestRunNotShorter(r1, r2, ms, count, budget);
    } else if |r2| < |r1| {
      NewestRunNotShorter(r2, r1, ms, count, budget);
    }
  }

  lemma {:induction false} NewestRunNotShorter(r1: seq<Line>, r2: seq<Line>, ms: seq<Line>, count: nat, budget: nat)
    requires IsNewestRun(r1, ms, count, budget) && |r1| < |r2| <= |ms| && r2 == ms[|ms| - |r2|..]
    requires |r2| <= count
    ensures |r2| > 1 && Size(r2) > budget
  {
    var n := |ms| - |r1| - 1;
    assert r2 == ms[|ms| - |r2|..n] + ([ms[n]] + r1);
    SizeConcat(ms[|ms| - |r2|..n], [ms[n]] + r1);
    SizeConcat([ms[n]], r1);
  }

  /** So is the oldest run. */
  lemma {:induction false} OldestRunUnique(r1: seq<Line>, r2: seq<Line>, ms: seq<Line>, count: nat, budget: nat)
    requires IsOldestRun(r1, ms, count, budget) && IsOldestRun(r2, ms, count, budget)
    ensures r1 == r2
  {
    if |r1| < |r2| {
      OldestRunNotShorter(r1, r2, ms, count, budget);
    } else if |r2| < |r1| {
      OldestRunNotShorter(r2, r1, ms, count, budget);
    }
  }

  lemma {:induction false} OldestRunNotShorter(r1: seq<Line>, r2: seq<Line>, ms: seq<Line>, count: nat, budget: nat)
    requires IsOldestRun(r1, ms, count, budget) && |r1| < |r2| && r2 <= ms
    requires |r2| <= count
    ensures |r2| > 1 && Size(r2) > budget
  {
    var n := |r1|;
    assert r2 == (r1 + [ms[n]]) + r2[n + 1..];
    SizeConcat(r1 + [ms[n]], r2[n + 1..]);
    SizeConcat(r1, [ms[n]]);
  }
}
