/** What the parser takes and what it makes of it, told by how the text is put together. */
module SyslogGrammar {
  import opened Options
  import opened SyslogFormat
  import opened SyslogParser
  import opened SyslogRoundTrip

  predicate Digits(d: string) {
    forall i | 0 <= i < |d| :: IsDigit(d[i])
  }

  // ---- The pieces --------------------------------------------------------------------------

  /** A priority: one to three digits in angle brackets, at most 191. */
  predicate IsPri(d: string) {
    1 <= |d| <= 3 && Digits(d) && Number(d) <= 191
  }

  lemma {:induction false} PriTaken(d: string, rest: string)
    requires IsPri(d)
    ensures PriOf("<" + d + ">" + rest) == Some(Parsed(Number(d), rest))
  {
    var s := "<" + d + ">" + rest;
    assert forall k | 1 <= k < 1 + |d| :: s[k] == d[k - 1];
    RunAt(s, 1, 1 + |d|);
    assert s[1..1 + |d|] == d && s[|d| + 2..] == rest;
    hide Number, DigitRun;
  }

  lemma {:induction false} PriFrom(s: string) returns (d: string)
    requires PriOf(s).Some?
    ensures IsPri(d) && Number(d) == PriOf(s).value.value && s == "<" + d + ">" + PriOf(s).value.rest
  {
    hide Number;
    var e := if DigitRun(s, 1) > 4 then 4 else DigitRun(s, 1);
    d := s[1..e];
    PriCut(s, e);
  }

  lemma {:induction false} PriCut(s: string, e: nat)
    requires 1 <= e < |s| && s[0] == '<' && s[e] == '>'
    ensures s == "<" + s[1..e] + ">" + s[e + 1..]
  {}

  lemma {:induction false} SpaceCut(s: string, e: nat)
    requires e < |s| && s[e] == ' '
    ensures s == s[..e] + (" " + s[e + 1..])
  {}

  /** A version: one or two digits that say 1. */
  predicate IsVersion(v: string) {
    1 <= |v| <= 2 && Digits(v) && Number(v) == 1
  }

  lemma {:induction false} VersionTaken(v: string, rest: string)
    requires IsVersion(v)
    ensures AfterVersion(v + (" " + rest)) == Some(rest)
  {
    var s := v + (" " + rest);
    assert forall k | 0 <= k < |v| :: s[k] == v[k];
    RunAt(s, 0, |v|);
    assert s[..|v|] == v && s[|v| + 1..] == rest;
    hide Number, DigitRun;
  }

  lemma {:induction false} VersionFrom(s: string) returns (v: string)
    requires AfterVersion(s).Some?
    ensures IsVersion(v) && s == v + (" " + AfterVersion(s).value)
  {
    hide Number;
    var vi := DigitRun(s, 0);
    v := s[..vi];
    SpaceCut(s, vi);
  }

  /** A word that ends the text. */
  lemma {:induction false} LastWord(word: string)
    requires NoSpace(word) && word != ""
    ensures NextWord(word) == Parsed(Given(word), "")
  {
    FindAt(word, ' ', 0, |word|);
    assert word[..|word|] == word;
  }

  lemma {:induction false} WordFrom(s: string) returns (word: string)
    requires Count(s, ' ') > 0
    ensures NoSpace(word) && s == word + (" " + NextWord(s).rest) && NextWord(s).value == Given(word)
    ensures Count(s, ' ') == 1 + Count(NextWord(s).rest, ' ')
  {
    var e := Find(s, ' ', 0);
    CountBefore(s, e);
    hide Count, Find;
    word := s[..e];
    SpaceCut(s, e);
  }

  lemma {:induction false} CountBefore(s: string, e: nat)
    requires e <= |s| && forall k | 0 <= k < e :: s[k] != ' '
    ensures Count(s, ' ') == Count(s[e..], ' ')
    ensures e < |s| && s[e] == ' ' ==> Count(s, ' ') == 1 + Count(s[e + 1..], ' ')
    ensures e == |s| ==> Count(s, ' ') == 0
    decreases e
  {
    if e == 0 {
      assert s[0..] == s;
    } else {
      CountBefore(s[1..], e - 1);
      assert s[1..][e - 1..] == s[e..];
      assert e < |s| ==> s[1..][e..] == s[e + 1..];
    }
  }

  // ---- RFC 5424 ----------------------------------------------------------------------------

  /** A priority, a version, four words and whatever follows, a space behind each. */
  function Text5424(d: string, v: string, ts: string, host: string, app: string, pid: string, tail: string): string {
    "<" + d + ">" + (v + (" " + (ts + (" " + (host + (" " + (app + (" " + (pid + (" " + tail))))))))))
  }

  lemma {:induction false} FourWords(ts: string, host: string, app: string, pid: string, tail: string)
    requires NoSpace(ts) && NoSpace(host) && NoSpace(app) && NoSpace(pid)
    ensures var t, last := ts + (" " + (host + (" " + (app + (" " + (pid + (" " + tail))))))), NextWord(tail);
            && Header(t) == Parsed([Given(ts), Given(host), Given(app), Given(pid), last.value], last.rest)
            && Count(t, ' ') >= 4
  {
    hide NextWord, NoSpace, Count;
    var t3 := pid + (" " + tail);
    var t2 := app + (" " + t3);
    var t1 := host + (" " + t2);
    WordBack(ts, t1);
    WordBack(host, t2);
    WordBack(app, t3);
    WordBack(pid, tail);
    FourSpaces(ts, host, app, pid, tail);
  }

  lemma {:induction false} MessageOf5424(data: string, n: int, s: string, t: string)
    requires PriOf(data) == Some(Parsed(n, s)) && AfterVersion(s) == Some(t) && Count(t, ' ') >= 4
    ensures 0 <= n <= 191 && Taken5424(data).Some?
    ensures var m, h := Taken5424(data).value, Header(t);
            && m.protocol == RFC5424 && m.raw == data && m.version == Some(1)
            && m.pri == Some(n) && m.facility == Some(n / 8) && m.severity == Some(n % 8)
            && m.timestamp == h.value[0] && m.hostname == h.value[1] && m.appName == h.value[2]
            && m.procId == h.value[3] && m.msgId == h.value[4] && m.message == h.rest
  {
    PriRange(data);
    hide PriOf, AfterVersion, Header, Count;
  }

  /** Every such text is taken, and is read as what it is put together from. */
  lemma {:induction false} Takes5424(d: string, v: string, ts: string, host: string, app: string, pid: string, tail: string)
    requires IsPri(d) && IsVersion(v) && NoSpace(ts) && NoSpace(host) && NoSpace(app) && NoSpace(pid)
    ensures var data, n, last := Text5424(d, v, ts, host, app, pid, tail), Number(d), NextWord(tail);
            Taken5424(data).Some? && 0 <= n
            && var m := Taken5424(data).value;
            && m.protocol == RFC5424 && m.raw == data && m.version == Some(1)
            && m.pri == Some(n) && m.facility == Some(n / 8) && m.severity == Some(n % 8)
            && m.timestamp == Given(ts) && m.hostname == Given(host) && m.appName == Given(app)
            && m.procId == Given(pid) && m.msgId == last.value && m.message == last.rest
  {
    var t := ts + (" " + (host + (" " + (app + (" " + (pid + (" " + tail)))))));
    var data := "<" + d + ">" + (v + (" " + t));
    assert Text5424(d, v, ts, host, app, pid, tail) == data;
    var n := Number(d);
    hide *;
    PriTaken(d, v + (" " + t));
    VersionTaken(v, t);
    FourWords(ts, host, app, pid, tail);
    MessageOf5424(data, n, v + (" " + t), t);
  }

  /** And no other text is. */
  lemma {:induction false} OnlyTakes5424(data: string)
    returns (d: string, v: string, ts: string, host: string, app: string, pid: string, tail: string)
    requires Taken5424(data).Some?
    ensures IsPri(d) && IsVersion(v) && NoSpace(ts) && NoSpace(host) && NoSpace(app) && NoSpace(pid)
    ensures data == Text5424(d, v, ts, host, app, pid, tail)
  {
    hide Number, PriOf, AfterVersion, NextWord, Count, NoSpace, IsPri, IsVersion;
    d := PriFrom(data);
    var s := PriOf(data).value.rest;
    v := VersionFrom(s);
    var t0 := AfterVersion(s).value;
    ts := WordFrom(t0);
    var t1 := NextWord(t0).rest;
    host := WordFrom(t1);
    var t2 := NextWord(t1).rest;
    app := WordFrom(t2);
    var t3 := NextWord(t2).rest;
    pid := WordFrom(t3);
    tail := NextWord(t3).rest;
  }

  // ---- The RFC 3164 timestamp --------------------------------------------------------------

  predicate IsMonthName(m: string) {
    m in ["Jan", "Feb", "Mar", "Apr", "May", "Jun", "Jul", "Aug", "Sep", "Oct", "Nov", "Dec"]
  }

  predicate Blank(b: string) {
    b != "" && forall i | 0 <= i < |b| :: b[i] == ' '
  }

  predicate IsDay(d: string) {
    1 <= |d| <= 2 && Digits(d) && 1 <= Number(d) <= 31
  }

  predicate UpTo(d: string, max: int) {
    |d| == 2 && Digits(d) && Number(d) <= max
  }

  /** hh:mm:ss */
  predicate IsClock(c: string) {
    |c| == 8 && UpTo(c[..2], 23) && c[2] == ':' && UpTo(c[3..5], 59) && c[5] == ':' && UpTo(c[6..], 59)
  }

  lemma {:induction false} ClockIs(c: string)
    ensures ClockTime(c) <==> IsClock(c)
  {
    if |c| == 8 {
      TwoIs(c, 0);
      TwoIs(c, 3);
      TwoIs(c, 6);
      assert c[..2] == c[0..2] && c[6..] == c[6..8];
      hide Number, Digits, TwoDigits;
    }
  }

  lemma {:induction false} TwoIs(c: string, i: nat)
    requires i + 2 <= |c|
    ensures Digits(c[i..i + 2]) <==> IsDigit(c[i]) && IsDigit(c[i + 1])
    ensures Digits(c[i..i + 2]) ==> Number(c[i..i + 2]) == TwoDigits(c[i], c[i + 1])
  {
    var d := c[i..i + 2];
    assert d[0] == c[i] && d[1] == c[i + 1];
    if Digits(d) {
      DayNumber(d);
    }
  }

  /** A month, a day and a time with any number of spaces between them. */
  function TimeText(month: string, a: string, day: string, b: string, clock: string): string {
    month + (a + (day + (b + clock)))
  }

  function WithoutSpace(s: string): string {
    if s != "" && s[0] == ' ' then s[1..] else s
  }

  /** A month, spaces, a day, spaces and a time, one behind the other. */
  predicate IsTime(month: string, a: string, day: string, b: string, clock: string) {
    IsMonthName(month) && Blank(a) && IsDay(day) && Blank(b) && IsClock(clock)
  }

  lemma {:induction false} TakesTimestamp(month: string, a: string, day: string, b: string, clock: string, rest: string)
    requires IsTime(month, a, day, b, clock)
    ensures var ts := TimeText(month, a, day, b, clock); Timestamp(ts + rest) == Some(Parsed(ts, WithoutSpace(rest)))
  {
    TimeHas(month, a, day, b, clock);
    var s := TimeText(month, a, day, b, clock) + rest;
    var i := 3 + |a|;
    var j := i + |day|;
    var k := j + |b|;
    hide *;
    TimeSlices(month, a, day, b, clock, rest);
    BlankRun(s, 3, i);
    DigitsRun(s, i, j);
    BlankRun(s, j, k);
    TimestampAt(s, i, j, k);
  }

  /** The pieces, as far as the parser looks at them. */
  lemma {:induction false} TimeHas(month: string, a: string, day: string, b: string, clock: string)
    requires IsTime(month, a, day, b, clock)
    ensures |month| == 3 && month in MONTHS && a != "" && b != "" && day != "" && |clock| == 8
    ensures Blank(a) && Blank(b) && Digits(day) && DayOfMonth(day) && ClockTime(clock)
    ensures IsDigit(day[0]) && IsDigit(clock[0]) && b[0] == ' '
  {
    MonthLength(month);
    ClockIs(clock);
    assert clock[0] == clock[..2][0];
    hide Number, IsMonthName;
  }

  lemma {:induction false} TimeSlices(month: string, a: string, day: string, b: string, clock: string, rest: string)
    requires |month| == 3 && |clock| == 8 && a != "" && b != "" && day != ""
    ensures var s, ts := TimeText(month, a, day, b, clock) + rest, TimeText(month, a, day, b, clock);
            var i := 3 + |a|; var j := i + |day|; var k := j + |b|;
            && k + 8 <= |s| && s[..3] == month && s[3..i] == a && s[i..j] == day && s[j..k] == b && s[k..k + 8] == clock
            && s[..k + 8] == ts && s[k + 8..] == rest && s[i] == day[0] && s[j] == b[0] && s[k] == clock[0]
  {}

  lemma {:induction false} BlankRun(s: string, from: nat, to: nat)
    requires from <= to < |s| && Blank(s[from..to]) && IsDigit(s[to])
    ensures SkipRun(s, ' ', from) == to
  {
    assert forall x | from <= x < to :: s[x] == s[from..to][x - from];
    SkipAt(s, ' ', from, to);
    hide SkipRun;
  }

  lemma {:induction false} DigitsRun(s: string, from: nat, to: nat)
    requires from <= to < |s| && Digits(s[from..to]) && s[to] == ' '
    ensures DigitRun(s, from) == to
  {
    assert forall x | from <= x < to :: s[x] == s[from..to][x - from];
    RunAt(s, from, to);
    hide DigitRun;
  }

  lemma {:induction false} TimestampAt(s: string, i: nat, j: nat, k: nat)
    requires 3 < i <= j < k && k + 8 <= |s| && s[..3] in MONTHS && SkipRun(s, ' ', 3) == i
    requires DigitRun(s, i) == j && DayOfMonth(s[i..j]) && SkipRun(s, ' ', j) == k && ClockTime(s[k..k + 8])
    ensures Timestamp(s) == Some(Parsed(s[..k + 8], WithoutSpace(s[k + 8..])))
  {
    hide SkipRun, DigitRun, DayOfMonth, ClockTime;
  }

  lemma {:induction false} MonthLength(month: string)
    requires IsMonthName(month)
    ensures |month| == 3 && month in MONTHS
  {}

  lemma {:induction false} TimeCut(s: string, i: nat, j: nat, k: nat)
    requires 3 <= i <= j <= k && k + 8 <= |s|
    ensures s == TimeText(s[..3], s[3..i], s[i..j], s[j..k], s[k..k + 8]) + s[k + 8..]
  {}

  lemma {:induction false} BlankBack(s: string, from: nat)
    requires from <= |s| && SkipRun(s, ' ', from) > from
    ensures Blank(s[from..SkipRun(s, ' ', from)])
  {}

  lemma {:induction false} TimestampParts(s: string) returns (i: nat, j: nat, k: nat)
    requires Timestamp(s).Some?
    ensures 3 < i <= j < k && k + 8 <= |s| && MonthPrefix(s) && i == SkipRun(s, ' ', 3) && k == SkipRun(s, ' ', j)
    ensures DayOfMonth(s[i..j]) && ClockTime(s[k..k + 8])
  {
    i := SkipRun(s, ' ', 3);
    j := DigitRun(s, i);
    k := SkipRun(s, ' ', j);
    hide SkipRun, DigitRun, DayOfMonth, ClockTime;
  }

  lemma {:induction false} TimeIs(s: string, a: string, day: string, b: string, clock: string)
    requires MonthPrefix(s) && Blank(a) && DayOfMonth(day) && Blank(b) && ClockTime(clock)
    ensures IsTime(s[..3], a, day, b, clock)
  {
    ClockIs(clock);
    hide Number, Blank, ClockTime, IsClock;
  }

  lemma {:induction false} OnlyTakesTimestamp(s: string)
    returns (month: string, a: string, day: string, b: string, clock: string, rest: string)
    requires Timestamp(s).Some?
    ensures IsTime(month, a, day, b, clock)
    ensures s == TimeText(month, a, day, b, clock) + rest
  {
    hide *;
    var i, j, k := TimestampParts(s);
    month, a, day, b, clock, rest := s[..3], s[3..i], s[i..j], s[j..k], s[k..k + 8], s[k + 8..];
    BlankBack(s, 3);
    BlankBack(s, j);
    TimeIs(s, a, day, b, clock);
    TimeCut(s, i, j, k);
  }

  // ---- The RFC 3164 tag ----------------------------------------------------------------------

  predicate Without(s: string, c: char) {
    c !in s
  }

  lemma {:induction false} TagText(tag: string, rest: string)
    requires Without(tag, ':') && Without(tag, ' ')
    ensures var s := tag + (":" + rest);
            Find(s, ':', 0) == |tag| < Find(s, ' ', 0) && s[..|tag|] == tag && s[|tag| + 1..] == rest
  {
    var s := tag + (":" + rest);
    assert forall k | 0 <= k < |tag| :: s[k] == tag[k];
    FindAt(s, ':', 0, |tag|);
    SpaceLater(s, |tag|);
    hide Find;
  }

  /** Text up to a colon, with no space in it, is a tag: the app. */
  lemma {:induction false} TakesTag(tag: string, rest: string)
    requires Without(tag, ':') && Without(tag, ' ') && (Without(tag, '[') || tag[|tag| - 1] != ']')
    ensures TagOf(tag + (":" + rest)) == Parsed(AppPid(if tag == "" then None else Some(tag), None), WithoutSpace(rest))
  {
    TagText(tag, rest);
    if Without(tag, '[') {
      FindAt(tag, '[', 0, |tag|);
    }
    hide Find;
  }

  /** With brackets at its end it is the app before the first of them, and the pid in them. */
  lemma {:induction false} TakesBracketTag(app: string, pid: string, rest: string)
    requires Without(app, '[') && Without(app, ':') && Without(app, ' ') && Without(pid, ':') && Without(pid, ' ')
    ensures TagOf(app + ("[" + (pid + "]")) + (":" + rest))
         == Parsed(AppPid(if app == "" then None else Some(app), if pid == "" then None else Some(pid)), WithoutSpace(rest))
  {
    BracketAt(app, pid);
    hide Without, Find;
    TagText(app + ("[" + (pid + "]")), rest);
  }

  lemma {:induction false} BracketAt(app: string, pid: string)
    requires Without(app, '[') && Without(app, ':') && Without(app, ' ') && Without(pid, ':') && Without(pid, ' ')
    ensures var tag := app + ("[" + (pid + "]"));
            && Without(tag, ':') && Without(tag, ' ') && Find(tag, '[', 0) == |app| && tag[|tag| - 1] == ']'
            && tag[..|app|] == app && tag[|app| + 1..|tag| - 1] == pid
  {
    var tag := app + ("[" + (pid + "]"));
    assert forall k | 0 <= k < |app| :: tag[k] == app[k];
    FindAt(tag, '[', 0, |app|);
    hide Find;
  }

  lemma {:induction false} SpaceLater(s: string, e: nat)
    requires e < |s| && forall k | 0 <= k <= e :: s[k] != ' '
    ensures Find(s, ' ', 0) > e
  {}

  /** Where every colon has a space before it there is no tag, and the text is left alone. */
  lemma {:induction false} TakesNoTag(s: string)
    requires forall i | 0 <= i < |s| && s[i] == ':' :: ' ' in s[..i]
    ensures TagOf(s) == Parsed(AppPid(None, None), s)
  {
    var colon, space := Find(s, ':', 0), Find(s, ' ', 0);
    if colon < |s| {
      var k :| 0 <= k < colon && s[..colon][k] == ' ';
      assert s[k] == ' ';
    }
  }

  // ---- RFC 3164 ----------------------------------------------------------------------------

  /** Behind the timestamp: a host and, after a space, what holds the tag; or a host alone. */
  lemma {:induction false} HostTaken(host: string, tail: string)
    requires NoSpace(host)
    ensures var s := host + (" " + tail); var sp := Find(s, ' ', 0);
            sp < |s| && NonEmptyUnless(s, sp) == Some(host) && s[sp + 1..] == tail
    ensures var sp := Find(host, ' ', 0); sp == |host| && NonEmptyUnless(host, sp) == if host == "" then None else Some(host)
  {
    HostBack(host, tail);
    FindAt(host, ' ', 0, |host|);
  }

  /** What is made of it, once the priority and the time are read. */
  lemma {:induction false} MessageOf3164(data: string, n: int, s: string, ts: string, t: string)
    requires PriOf(data) == Some(Parsed(n, s)) && Timestamp(s) == Some(Parsed(ts, t))
    ensures 0 <= n <= 191 && Taken3164(data).Some?
    ensures var m, sp := Taken3164(data).value, Find(t, ' ', 0);
            var tag := TagOf(if sp == |t| then "" else t[sp + 1..]);
            && m.protocol == RFC3164 && m.raw == data && m.version == None && m.msgId == None
            && m.pri == Some(n) && m.facility == Some(n / 8) && m.severity == Some(n % 8)
            && m.timestamp == Some(ts) && m.hostname == NonEmptyUnless(t, sp)
            && m.appName == tag.value.app && m.procId == tag.value.pid && m.message == tag.rest
  {
    PriRange(data);
    hide PriOf, Timestamp, TagOf, Find, NonEmptyUnless;
  }

  /** A priority and a timestamp make it RFC 3164; the rest is a host, a tag and the message, as far as they go. */
  lemma {:induction false} Takes3164(
    d: string, month: string, a: string, day: string, b: string, clock: string, gap: string, host: string, tail: string)
    requires IsPri(d) && IsTime(month, a, day, b, clock)
    requires (gap == "" || gap == " ") && NoSpace(host) && (gap == "" ==> host != "")
    ensures
      var ts, n, tag := TimeText(month, a, day, b, clock), Number(d), TagOf(tail);
      var data := "<" + d + ">" + (ts + (gap + (host + (" " + tail))));
      Taken3164(data).Some? && 0 <= n
      && var m := Taken3164(data).value;
      && m.protocol == RFC3164 && m.raw == data && m.version == None && m.msgId == None
      && m.pri == Some(n) && m.facility == Some(n / 8) && m.severity == Some(n % 8)
      && m.timestamp == Some(ts) && m.hostname == Some(host)
      && m.appName == tag.value.app && m.procId == tag.value.pid && m.message == tag.rest
  {
    var n := Number(d);
    hide *;
    var ts, t := TimeText(month, a, day, b, clock), host + (" " + tail);
    TakesTimestamp(month, a, day, b, clock, gap + t);
    PriTaken(d, ts + (gap + t));
    GapDropped(gap, host, tail);
    MessageOf3164("<" + d + ">" + (ts + (gap + t)), n, ts + (gap + t), ts, t);
    HostTaken(host, tail);
  }

  lemma {:induction false} GapDropped(gap: string, host: string, tail: string)
    requires (gap == "" || gap == " ") && NoSpace(host) && (gap == "" ==> host != "")
    ensures WithoutSpace(gap + (host + (" " + tail))) == host + (" " + tail)
  {
    var s := host + (" " + tail);
    assert gap == "" ==> gap + s == s && s[0] == host[0];
    assert gap == " " ==> (gap + s)[1..] == s;
  }

  /** The text ends with the host, or with the time. */
  lemma {:induction false} TakesShort3164(
    d: string, month: string, a: string, day: string, b: string, clock: string, rest: string)
    requires IsPri(d) && IsTime(month, a, day, b, clock)
    requires NoSpace(WithoutSpace(rest))
    ensures
      var ts, host := TimeText(month, a, day, b, clock), WithoutSpace(rest);
      var data := "<" + d + ">" + (ts + rest);
      Taken3164(data).Some?
      && var m := Taken3164(data).value;
      && m.protocol == RFC3164 && m.raw == data && m.pri == Some(Number(d)) && m.timestamp == Some(ts)
      && m.hostname == (if host == "" then None else Some(host))
      && m.appName == None && m.procId == None && m.message == ""
  {
    var n := Number(d);
    hide *;
    var ts, host := TimeText(month, a, day, b, clock), WithoutSpace(rest);
    TakesTimestamp(month, a, day, b, clock, rest);
    PriTaken(d, ts + rest);
    MessageOf3164("<" + d + ">" + (ts + rest), n, ts + rest, ts, host);
    HostTaken(host, "");
    TakesNoTag("");
  }

  /** Nothing without a priority and a timestamp is taken. */
  lemma {:induction false} OnlyTakes3164(data: string)
    returns (d: string, month: string, a: string, day: string, b: string, clock: string, rest: string)
    requires Taken3164(data).Some?
    ensures IsPri(d) && IsTime(month, a, day, b, clock)
    ensures data == "<" + d + ">" + (TimeText(month, a, day, b, clock) + rest)
  {
    hide PriOf, Timestamp, TimeText, IsTime, IsPri;
    d := PriFrom(data);
    month, a, day, b, clock, rest := OnlyTakesTimestamp(PriOf(data).value.rest);
  }

  // ---- A datagram --------------------------------------------------------------------------

  /** Stripping takes CRs and LFs off the end, all of them, and nothing else. */
  lemma {:induction false} StrippedIs(s: string)
    ensures var t := Stripped(s);
            && t <= s && (forall i | |t| <= i < |s| :: s[i] == '\r' || s[i] == '\n')
            && (t == "" || (t[|t| - 1] != '\r' && t[|t| - 1] != '\n'))
  {
    if s != "" && (s[|s| - 1] == '\r' || s[|s| - 1] == '\n') {
      StrippedIs(s[..|s| - 1]);
    }
  }

  lemma {:induction false} TakenAs(data: string)
    ensures Taken5424(data).Some? ==> Taken5424(data).value.protocol == RFC5424 && Taken5424(data).value.raw == data
    ensures Taken3164(data).Some? ==> Taken3164(data).value.protocol == RFC3164 && Taken3164(data).value.raw == data
  {
    hide PriOf, AfterVersion, Header, Count, Timestamp, TagOf, Find;
  }

  /**
   A datagram, less its line ends, is RFC 5424 when it can be, RFC 3164 when it can be that and not the
   other, and otherwise unknown: then it has no fields, and its whole text is the message.
   */
  lemma {:induction false} ParsedAs(data: string)
    ensures
      var m, s := Parse(data), Stripped(data);
      && m.raw == s
      && (m.protocol == RFC5424 <==> Taken5424(s).Some?)
      && (m.protocol == RFC3164 <==> Taken5424(s).None? && Taken3164(s).Some?)
      && (m.protocol == Unknown ==>
            && m.message == s && m.pri == m.facility == m.severity == m.version == None
            && m.facilityName == m.severityName == m.timestamp == m.hostname == None
            && m.appName == m.procId == m.msgId == None)
  {
    TakenAs(Stripped(data));
    hide Taken5424, Taken3164, Stripped;
  }

  // ---- What the sender accepts ---------------------------------------------------------------

  /** A word of printable ASCII without a space, of at most max characters. */
  predicate Word(s: string, max: nat) {
    0 < |s| <= max && forall i | 0 <= i < |s| :: '!' <= s[i] <= '~'
  }

  predicate NoBrackets(s: string) {
    '[' !in s && ']' !in s && ':' !in s
  }

  /** Fields for RFC 5424 are accepted if and only if they are these. */
  lemma {:induction false} AcceptedIff5424(f: Fields)
    ensures Accepted(f, false) <==>
              && 0 <= f.facility <= 23 && 0 <= f.severity <= 7 && f.message != ""
              && Word(f.hostname, 255) && Word(f.app, 48)
              && (f.pid.Some? ==> Word(f.pid.value, 128)) && (f.msgid.Some? ==> Word(f.msgid.value, 32))
  {
    Refused5424(f);
    WordIs(f.hostname, 255);
    WordIs(f.app, 48);
    if f.pid.Some? {
      WordIs(f.pid.value, 128);
    }
    if f.msgid.Some? {
      WordIs(f.msgid.value, 32);
    }
    hide Accepted, PrintableToken, Word;
  }

  lemma {:induction false} WordIs(s: string, max: nat)
    ensures Word(s, max) <==> PrintableToken(s) && |s| <= max
  {}

  lemma {:induction false} Refused5424(f: Fields)
    ensures Accepted(f, false) <==>
              && 0 <= f.facility <= 23 && 0 <= f.severity <= 7 && f.message != ""
              && PrintableToken(f.hostname) && |f.hostname| <= 255 && PrintableToken(f.app) && |f.app| <= 48
              && (f.pid.Some? ==> PrintableToken(f.pid.value) && |f.pid.value| <= 128)
              && (f.msgid.Some? ==> PrintableToken(f.msgid.value) && |f.msgid.value| <= 32)
  {
    hide PrintableToken;
    assert forall p: Problem :: Accepted(f, false) ==> !Has(f, false, p);
    if !Accepted(f, false) {
      var p :| Has(f, false, p);
    } else {
      assert !Has(f, false, FacilityRange) && !Has(f, false, SeverityRange) && !Has(f, false, MessageEmpty);
      assert !Has(f, false, HostnameToken) && !Has(f, false, AppToken) && !Has(f, false, PidToken);
      assert !Has(f, false, HostnameLength) && !Has(f, false, AppLength) && !Has(f, false, PidLength);
      assert !Has(f, false, MsgidToken) && !Has(f, false, MsgidLength);
    }
  }

  /** Fields for RFC 3164 are accepted if and only if they are these; the tag is the app and the pid in brackets. */
  lemma {:induction false} AcceptedIff3164(f: Fields)
    ensures Accepted(f, true) <==>
              && 0 <= f.facility <= 23 && 0 <= f.severity <= 7 && f.message != "" && f.msgid == None
              && Word(f.hostname, |f.hostname|) && Word(f.app, 32) && NoBrackets(f.app)
              && (f.pid.Some? ==> Word(f.pid.value, |f.pid.value|) && NoBrackets(f.pid.value)
                                  && |f.app| + 2 + |f.pid.value| <= 32)
  {
    Refused3164(f);
    WordIs(f.hostname, |f.hostname|);
    WordIs(f.app, 32);
    BracketsAre(f.app);
    if f.pid.Some? {
      WordIs(f.pid.value, |f.pid.value|);
      BracketsAre(f.pid.value);
    }
    hide Accepted, PrintableToken, Word, NoBrackets, NoneOf;
  }

  lemma {:induction false} BracketsAre(s: string)
    ensures NoneOf(s, "[]:") <==> NoBrackets(s)
  {
    assert forall c: char :: c in "[]:" <==> c == '[' || c == ']' || c == ':';
  }

  lemma {:induction false} Refused3164(f: Fields)
    ensures Accepted(f, true) <==>
              && 0 <= f.facility <= 23 && 0 <= f.severity <= 7 && f.message != "" && f.msgid == None
              && PrintableToken(f.hostname) && PrintableToken(f.app) && NoneOf(f.app, "[]:")
              && (f.pid.Some? ==> PrintableToken(f.pid.value) && NoneOf(f.pid.value, "[]:"))
              && |f.app| + (if f.pid.Some? then 2 + |f.pid.value| else 0) <= 32
  {
    hide PrintableToken, NoneOf;
    assert |Tag(f)| == |f.app| + if f.pid.Some? then 2 + |f.pid.value| else 0;
    if !Accepted(f, true) {
      var p :| Has(f, true, p);
    } else {
      assert !Has(f, true, FacilityRange) && !Has(f, true, SeverityRange) && !Has(f, true, MessageEmpty);
      assert !Has(f, true, HostnameToken) && !Has(f, true, AppToken) && !Has(f, true, PidToken);
      assert !Has(f, true, AppTag) && !Has(f, true, PidTag) && !Has(f, true, MsgidUnused) && !Has(f, true, TagLength);
    }
  }

  /** The field a refusal names. */
  predicate AtFault(f: Fields, rfc3164: bool, p: Problem) {
    match p
    case FacilityRange => f.facility < 0 || f.facility > 23
    case SeverityRange => f.severity < 0 || f.severity > 7
    case HostnameToken | HostnameLength => !Word(f.hostname, if rfc3164 then |f.hostname| else 255)
    case AppToken | AppLength => !Word(f.app, if rfc3164 then |f.app| else 48)
    case PidToken | PidLength => f.pid.Some? && !Word(f.pid.value, if rfc3164 then |f.pid.value| else 128)
    case MsgidToken | MsgidLength => !rfc3164 && f.msgid.Some? && !Word(f.msgid.value, 32)
    case AppTag => rfc3164 && !NoBrackets(f.app)
    case PidTag => rfc3164 && f.pid.Some? && !NoBrackets(f.pid.value)
    case MsgidUnused => rfc3164 && f.msgid.Some?
    case TagLength => rfc3164 && |f.app| + (if f.pid.Some? then 2 + |f.pid.value| else 0) > 32
    case MessageEmpty => f.message == ""
  }

  /** A refusal names a field that is at fault. */
  lemma {:induction false} RefusedFor(f: Fields, rfc3164: bool, p: Problem)
    requires Has(f, rfc3164, p)
    ensures AtFault(f, rfc3164, p)
  {
    WordIs(f.hostname, if rfc3164 then |f.hostname| else 255);
    WordIs(f.app, if rfc3164 then |f.app| else 48);
    BracketsAre(f.app);
    if f.pid.Some? {
      WordIs(f.pid.value, if rfc3164 then |f.pid.value| else 128);
      BracketsAre(f.pid.value);
    }
    if f.msgid.Some? {
      WordIs(f.msgid.value, 32);
    }
    hide PrintableToken, Word, NoBrackets, NoneOf;
  }
}
