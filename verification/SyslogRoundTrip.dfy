/** Printer and parser undo each other, in both wire formats. */
module SyslogRoundTrip {
  import opened Options
  import opened SyslogFormat
  import opened SyslogParser
  import opened SyslogNames

  predicate NoSpace(s: string) {
    ' ' !in s
  }

  // ---- Pieces ------------------------------------------------------------------------------

  lemma {:induction false} FindAt(s: string, c: char, i: nat, j: nat)
    requires i <= j <= |s| && (forall k | i <= k < j :: s[k] != c) && (j < |s| ==> s[j] == c)
    ensures Find(s, c, i) == j
    decreases j - i
  {
    if i < j {
      FindAt(s, c, i + 1, j);
    }
  }

  lemma {:induction false} RunAt(s: string, i: nat, j: nat)
    requires i <= j <= |s| && (forall k | i <= k < j :: IsDigit(s[k])) && (j < |s| ==> !IsDigit(s[j]))
    ensures DigitRun(s, i) == j
    decreases j - i
  {
    if i < j {
      RunAt(s, i + 1, j);
    }
  }

  lemma {:induction false} SkipAt(s: string, c: char, i: nat, j: nat)
    requires i <= j <= |s| && (forall k | i <= k < j :: s[k] == c) && (j < |s| ==> s[j] != c)
    ensures SkipRun(s, c, i) == j
    decreases j - i
  {
    if i < j {
      SkipAt(s, c, i + 1, j);
    }
  }

  /** One word and the space after it: the word comes back, and "-" is nothing. */
  lemma {:induction false} WordBack(word: string, rest: string)
    requires NoSpace(word)
    ensures NextWord(word + (" " + rest)) == Parsed(if word == "-" then None else Some(word), rest)
  {
    var s := word + (" " + rest);
    FindAt(s, ' ', 0, |word|);
    assert s[..|word|] == word;
    assert s[|word| + 1..] == rest;
  }

  lemma {:induction false} DecimalShort(n: nat)
    requires n <= 191
    ensures 1 <= |Decimal(n)| <= 3
  {
    var ten := n / 10;
    assert |Decimal(n)| <= 1 + |Decimal(ten)|;
    assert ten >= 10 ==> |Decimal(ten)| == 1 + |Decimal(ten / 10)|;
  }

  /** The priority comes back, and the text after it. */
  lemma {:induction false} PriBack(f: Fields, rest: string)
    requires 0 <= f.facility <= 23 && 0 <= f.severity <= 7
    ensures PriOf(Pri(f) + rest) == Some(Parsed(f.facility * 8 + f.severity, rest))
  {
    var n := f.facility * 8 + f.severity;
    var d, s := Decimal(n), Pri(f) + rest;
    DecimalShort(n);
    NumberOfDecimal(n);
    assert s == ['<'] + d + ['>'] + rest;
    assert forall k | 1 <= k < 1 + |d| :: s[k] == d[k - 1];
    RunAt(s, 1, 1 + |d|);
    assert s[1..1 + |d|] == d;
    assert s[|d| + 2..] == rest;
  }

  // ---- Stripping ----------------------------------------------------------------------------

  predicate IsLineEnd(c: char) {
    c == '\r' || c == '\n'
  }

  /** Only the end is stripped: text that does not end there is kept whole. */
  lemma {:induction false} StrippedBehind(a: string, b: string)
    requires Stripped(b) != "" || (a != "" && !IsLineEnd(a[|a| - 1]))
    ensures Stripped(a + b) == a + Stripped(b)
    decreases |b|
  {
    if b == "" {
      assert a + b == a;
    } else if IsLineEnd(b[|b| - 1]) {
      assert (a + b)[..|a + b| - 1] == a + b[..|b| - 1];
      StrippedBehind(a, b[..|b| - 1]);
    }
  }

  /** Stripping a printed message strips its text only, whatever the text. */
  lemma {:induction false} Stripped5424(f: Fields)
    ensures Stripped(Format5424(f)) == Format5424(f.(message := Stripped(f.message)))
  {
    hide Stripped, Decimal;
    var m := f.message;
    var t1 := "- " + m;
    var t2 := " " + t1;
    var t3 := Nilable(f.msgid) + t2;
    var t4 := " " + t3;
    var t5 := Nilable(f.pid) + t4;
    var t6 := " " + t5;
    var t7 := f.app + t6;
    var t8 := " " + t7;
    var t9 := f.hostname + t8;
    var t10 := " " + t9;
    var t11 := f.timestamp + t10;
    var t12 := "1 " + t11;
    StrippedBehind("- ", m);
    StrippedBehind(" ", t1);
    StrippedBehind(Nilable(f.msgid), t2);
    StrippedBehind(" ", t3);
    StrippedBehind(Nilable(f.pid), t4);
    StrippedBehind(" ", t5);
    StrippedBehind(f.app, t6);
    StrippedBehind(" ", t7);
    StrippedBehind(f.hostname, t8);
    StrippedBehind(" ", t9);
    StrippedBehind(f.timestamp, t10);
    StrippedBehind("1 ", t11);
    StrippedBehind(Pri(f), t12);
  }

  // ---- RFC 5424 -------------------------------------------------------------------------------

  /** The words of a printed header, each read back. */
  lemma {:induction false} HeaderBack(ts: string, host: string, app: string, pid: string, msgid: string, rest: string)
    requires NoSpace(ts) && NoSpace(host) && NoSpace(app) && NoSpace(pid) && NoSpace(msgid)
    ensures Header(ts + (" " + (host + (" " + (app + (" " + (pid + (" " + (msgid + (" " + rest))))))))))
         == Parsed([Given(ts), Given(host), Given(app), Given(pid), Given(msgid)], rest)
  {
    hide NextWord;
    var t4 := msgid + (" " + rest);
    var t3 := pid + (" " + t4);
    var t2 := app + (" " + t3);
    var t1 := host + (" " + t2);
    WordBack(msgid, rest);
    WordBack(pid, t4);
    WordBack(app, t3);
    WordBack(host, t2);
    WordBack(ts, t1);
  }

  /** "-" stands for a field that is not there. */
  function Given(word: string): Option<string> {
    if word == "-" then None else Some(word)
  }

  function GivenField(v: Option<string>): Option<string> {
    if v.None? then None else Given(v.value)
  }

  lemma {:induction false} CountConcat(a: string, b: string, c: char)
    ensures Count(a + b, c) == Count(a, c) + Count(b, c)
  {
    if a == "" {
      assert a + b == b;
    } else {
      assert (a + b)[1..] == a[1..] + b;
      CountConcat(a[1..], b, c);
    }
  }

  lemma {:induction false} FourSpaces(ts: string, host: string, app: string, pid: string, rest: string)
    ensures Count(ts + (" " + (host + (" " + (app + (" " + (pid + (" " + rest))))))), ' ') >= 4
  {
    assert Count(" ", ' ') == 1 by {
      assert " "[1..] == "";
    }
    hide Count;
    var t4 := " " + rest;
    var t3 := " " + (pid + t4);
    var t2 := " " + (app + t3);
    var t1 := " " + (host + t2);
    CountConcat(" ", rest, ' ');
    CountConcat(pid, t4, ' ');
    CountConcat(" ", pid + t4, ' ');
    CountConcat(app, t3, ' ');
    CountConcat(" ", app + t3, ' ');
    CountConcat(host, t2, ' ');
    CountConcat(" ", host + t2, ' ');
    CountConcat(ts, t1, ' ');
  }

  lemma {:induction false} VersionBack(rest: string)
    ensures AfterVersion("1 " + rest) == Some(rest)
  {
    var s := "1 " + rest;
    RunAt(s, 0, 1);
    assert s[..1] == "1" && "1"[..0] == "";
    assert s[2..] == rest;
  }

  lemma {:induction false} AcceptedWords(f: Fields, rfc3164: bool)
    requires Accepted(f, rfc3164)
    ensures 0 <= f.facility <= 23 && 0 <= f.severity <= 7 && f.message != ""
    ensures PrintableToken(f.hostname) && PrintableToken(f.app) && (f.pid.Some? ==> PrintableToken(f.pid.value))
    ensures f.app != "" && (f.pid.Some? ==> f.pid.value != "")
    ensures !rfc3164 && f.msgid.Some? ==> PrintableToken(f.msgid.value)
    ensures rfc3164 ==> NoneOf(f.app, "[]:") && (f.pid.Some? ==> NoneOf(f.pid.value, "[]:"))
  {
    assert !Has(f, rfc3164, FacilityRange) && !Has(f, rfc3164, SeverityRange) && !Has(f, rfc3164, MessageEmpty);
    assert !Has(f, rfc3164, HostnameToken) && !Has(f, rfc3164, AppToken) && !Has(f, rfc3164, PidToken);
    assert !Has(f, rfc3164, MsgidToken) && !Has(f, rfc3164, AppTag) && !Has(f, rfc3164, PidTag);
  }

  lemma {:induction false} Taken5424Back(f: Fields)
    requires 0 <= f.facility <= 23 && 0 <= f.severity <= 7
    requires NoSpace(f.timestamp) && NoSpace(f.hostname) && NoSpace(f.app)
    requires NoSpace(Nilable(f.pid)) && NoSpace(Nilable(f.msgid))
    ensures Taken5424(Format5424(f)) == Some(
      WithPri(BLANK, f.facility * 8 + f.severity).(
        protocol := RFC5424, raw := Format5424(f), version := Some(1), timestamp := Given(f.timestamp),
        hostname := Given(f.hostname), appName := Given(f.app), procId := Given(Nilable(f.pid)),
        msgId := Given(Nilable(f.msgid)), message := "- " + f.message))
  {
    hide PriOf, AfterVersion, Header, Count, Pri, Given, NoSpace, WithPri, Nilable;
    var rest := "- " + f.message;
    var header := f.timestamp + (" " + (f.hostname + (" " + (f.app + (" " + (Nilable(f.pid)
      + (" " + (Nilable(f.msgid) + (" " + rest)))))))));
    PriBack(f, "1 " + header);
    VersionBack(header);
    FourSpaces(f.timestamp, f.hostname, f.app, Nilable(f.pid), Nilable(f.msgid) + (" " + rest));
    HeaderBack(f.timestamp, f.hostname, f.app, Nilable(f.pid), Nilable(f.msgid), rest);
  }

  lemma {:induction false} WordsHaveNoSpace(f: Fields, rfc3164: bool)
    requires Accepted(f, rfc3164)
    ensures 0 <= f.facility <= 23 && 0 <= f.severity <= 7
    ensures NoSpace(f.hostname) && NoSpace(f.app) && NoSpace(Nilable(f.pid)) && (f.pid.Some? ==> NoSpace(f.pid.value))
    ensures !rfc3164 ==> NoSpace(Nilable(f.msgid))
  {
    AcceptedWords(f, rfc3164);
  }

  /** The names written are ones that are taken for that facility and that severity. */
  predicate Named(m: Message, f: Fields) {
    && m.facilityName.Some? && CodeOf(FACILITY_ALIASES, m.facilityName.value) == Some(f.facility)
    && m.severityName.Some? && CodeOf(SEVERITY_ALIASES, m.severityName.value) == Some(f.severity)
  }

  lemma {:induction false} NameItself(a: string)
    ensures SameName(a, a)
  {}

  lemma {:induction false} FacilityNamed(m: Message, pri: int)
    requires 0 <= pri <= 191
    ensures var p := WithPri(m, pri); p.facility == Some(pri / 8) && p.facilityName.Some? && CodeOf(FACILITY_ALIASES, p.facilityName.value) == Some(pri / 8)
  {
    hide CodeOf, SameName;
    var name := WithPri(m, pri).facilityName.value;
    NameItself(name);
    FacilityBack(pri / 8, name);
  }

  lemma {:induction false} SeverityNamed(m: Message, pri: int)
    requires 0 <= pri <= 191
    ensures var p := WithPri(m, pri); p.severity == Some(pri % 8) && p.severityName.Some? && CodeOf(SEVERITY_ALIASES, p.severityName.value) == Some(pri % 8)
  {
    hide CodeOf, SameName;
    var name := WithPri(m, pri).severityName.value;
    NameItself(name);
    SeverityBack(pri % 8, name);
  }

  lemma {:induction false} PriMeans(m: Message, f: Fields)
    requires 0 <= f.facility <= 23 && 0 <= f.severity <= 7
    ensures var p := WithPri(m, f.facility * 8 + f.severity);
            && p.facility == Some(f.facility) && p.severity == Some(f.severity)
            && Named(p, f)
  {
    hide CodeOf, WithPri;
    var pri := f.facility * 8 + f.severity;
    assert pri / 8 == f.facility && pri % 8 == f.severity;
    FacilityNamed(m, pri);
    SeverityNamed(m, pri);
  }

  /**
   What is printed as RFC 5424 is parsed as RFC 5424, with the same facility and severity, every header
   field back (nothing where there was nothing, or "-"), and the text behind its empty structured data.
   */
  lemma {:induction false} RoundTrip5424(f: Fields)
    requires Accepted(f, false) && f.timestamp != "" && NoSpace(f.timestamp)
    ensures var m := Parse(Format5424(f));
            && m.protocol == RFC5424 && m.version == Some(1)
            && m.facility == Some(f.facility) && m.severity == Some(f.severity) && Named(m, f)
            && m.timestamp == Given(f.timestamp) && m.hostname == Given(f.hostname) && m.appName == Given(f.app)
            && m.procId == GivenField(f.pid) && m.msgId == GivenField(f.msgid)
            && m.message == "- " + Stripped(f.message)
  {
    hide Accepted, Format5424, Stripped, Taken5424, Taken3164, WithPri, NoSpace;
    WordsHaveNoSpace(f, false);
    PriMeans(BLANK, f);
    Stripped5424(f);
    Taken5424Back(f.(message := Stripped(f.message)));
  }

  // ---- RFC 3164 -------------------------------------------------------------------------------

  function Clock(t: LocalTime): string
    requires t.Calendar()
  {
    [Digit(t.hour / 10), Digit(t.hour % 10), ':', Digit(t.minute / 10), Digit(t.minute % 10), ':',
     Digit(t.second / 10), Digit(t.second % 10)]
  }

  function Day(t: LocalTime): string
    requires t.Calendar()
  {
    [if t.day < 10 then ' ' else Digit(t.day / 10), Digit(t.day % 10)]
  }

  /** A printed time is fifteen characters: month, space, day, space, clock time. */
  lemma {:induction false} TimestampShape(t: LocalTime)
    requires t.Calendar()
    ensures Timestamp3164(t) == MONTHS[t.month] + ([' '] + Day(t) + [' '] + Clock(t)) && |MONTHS[t.month]| == 3
  {
    PaddedTwo(t.day, ' ');
    MonthsAreNoDigits(t.month);
    ClockShape(t);
    hide Padded, Clock, Digit;
    var c := Padded(t.hour, 2, '0') + (":" + (Padded(t.minute, 2, '0') + (":" + Padded(t.second, 2, '0'))));
    assert " " + (Day(t) + (" " + c)) == [' '] + Day(t) + [' '] + c;
  }

  lemma {:induction false} ClockShape(t: LocalTime)
    requires t.Calendar()
    ensures Padded(t.hour, 2, '0') + (":" + (Padded(t.minute, 2, '0') + (":" + Padded(t.second, 2, '0')))) == Clock(t)
  {
    PaddedTwo(t.hour, '0');
    PaddedTwo(t.minute, '0');
    PaddedTwo(t.second, '0');
    hide Padded;
  }

  lemma {:induction false} ClockRead(t: LocalTime)
    requires t.Calendar()
    ensures ClockTime(Clock(t)) <==> t.second <= 59
  {
    TwoDigitsBack(t.hour);
    TwoDigitsBack(t.minute);
    TwoDigitsBack(t.second);
  }

  lemma {:induction false} TwoDigitsBack(n: nat)
    requires n < 100
    ensures TwoDigits(Digit(n / 10), Digit(n % 10)) == n
  {}

  lemma {:induction false} DayRead(t: LocalTime)
    requires t.Calendar()
    ensures var d := Day(t); DayOfMonth(if t.day < 10 then d[1..] else d)
  {
    var d := if t.day < 10 then Day(t)[1..] else Day(t);
    assert forall i | 0 <= i < |d| :: IsDigit(d[i]);
    DayNumber(d);
    TwoDigitsBack(t.day);
  }

  /** Where the parser sees the parts of a printed time, whatever follows the space after it. */
  lemma {:induction false} TimestampPlaces(t: LocalTime, s: string)
    requires t.Calendar() && |s| >= 16 && s[15] == ' '
    requires s[..15] == MONTHS[t.month] + ([' '] + Day(t) + [' '] + Clock(t)) && |MONTHS[t.month]| == 3
    ensures MonthPrefix(s)
    ensures var d0 := SkipRun(s, ' ', 3); var d1 := DigitRun(s, d0);
            && d0 == (if t.day < 10 then 5 else 4) && d1 == 6 && SkipRun(s, ' ', 6) == 7
            && s[d0..6] == (if t.day < 10 then Day(t)[1..] else Day(t)) && s[7..15] == Clock(t)
  {
    hide MonthPrefix, SkipRun, DigitRun;
    var p := s[..15];
    var d0 := if t.day < 10 then 5 else 4;
    assert s[..3] == p[..3] == MONTHS[t.month];
    assert p[3] == ' ' && p[4] == Day(t)[0] && p[5] == Day(t)[1] && p[6] == ' ';
    assert p[7..15] == Clock(t);
    assert s[7] == p[7] == Clock(t)[0];
    IsMonth(t, s);
    SkipAt(s, ' ', 3, d0);
    RunAt(s, d0, 6);
    SkipAt(s, ' ', 6, 7);
    assert s[d0..6] == p[d0..6];
  }

  lemma {:induction false} IsMonth(t: LocalTime, s: string)
    requires t.month < 12 && |s| >= 3 && s[..3] == MONTHS[t.month]
    ensures MonthPrefix(s)
  {}

  /** A printed time is read back, with the space after it; a leap second is not read at all. */
  lemma {:induction false} TimestampBack(t: LocalTime, rest: string)
    requires t.Calendar()
    ensures Timestamp(Timestamp3164(t) + (" " + rest))
         == if t.second <= 59 then Some(Parsed(Timestamp3164(t), rest)) else None
  {
    TimestampShape(t);
    ClockRead(t);
    DayRead(t);
    var ts := Timestamp3164(t);
    var s := ts + (" " + rest);
    assert s[..15] == ts;
    hide ClockTime, DayOfMonth, Timestamp3164, SkipRun, DigitRun, MonthPrefix, Day, Clock;
    TimestampPlaces(t, s);
    assert s[15..] == " " + rest;
    assert (" " + rest)[1..] == rest;
  }

  /** A word that can stand in a tag. */
  predicate TagWord(s: string) {
    s != "" && NoSpace(s) && NoneOf(s, "[]:")
  }

  lemma {:induction false} TagWordChars(s: string)
    requires TagWord(s)
    ensures forall k | 0 <= k < |s| :: s[k] != '[' && s[k] != ']' && s[k] != ':' && s[k] != ' '
  {}

  lemma {:induction false} BareTag(app: string)
    requires TagWord(app)
    ensures forall k | 0 <= k < |app| :: app[k] != ':' && app[k] != ' '
    ensures Find(app, '[', 0) == |app|
  {
    TagWordChars(app);
    hide TagWord;
    FindAt(app, '[', 0, |app|);
  }

  lemma {:induction false} BracketedTag(app: string, pid: string)
    requires TagWord(app) && TagWord(pid)
    ensures var tag := app + ("[" + (pid + "]"));
            && (forall k | 0 <= k < |tag| :: tag[k] != ':' && tag[k] != ' ')
            && Find(tag, '[', 0) == |app| && tag[|tag| - 1] == ']'
            && tag[..|app|] == app && tag[|app| + 1..|tag| - 1] == pid
  {
    TagWordChars(app);
    TagWordChars(pid);
    hide TagWord, Find;
    var tag := app + ("[" + (pid + "]"));
    FindAt(tag, '[', 0, |app|);
  }

  lemma {:induction false} TagEnds(tag: string, rest: string)
    requires forall k | 0 <= k < |tag| :: tag[k] != ':' && tag[k] != ' '
    ensures var s := tag + (": " + rest);
            && Find(s, ':', 0) == |tag| && Find(s, ' ', 0) == |tag| + 1
            && s[..|tag|] == tag && DropSpace(s[|tag| + 1..]) == rest
  {
    hide Find;
    var s := tag + (": " + rest);
    FindAt(s, ':', 0, |tag|);
    FindAt(s, ' ', 0, |tag| + 1);
    assert s[|tag| + 1..] == " " + rest;
    assert (" " + rest)[1..] == rest;
  }

  /** The tag comes back as the app and the pid it was made of. */
  lemma {:induction false} TagBack(f: Fields, rest: string)
    requires TagWord(f.app) && (f.pid.Some? ==> TagWord(f.pid.value))
    ensures TagOf(Tag(f) + (": " + rest)) == Parsed(AppPid(Some(f.app), f.pid), rest)
  {
    hide Find, DropSpace, TagWord, Tag, NonEmpty;
    TagShape(f);
    TagEnds(Tag(f), rest);
  }

  lemma {:induction false} TagShape(f: Fields)
    requires TagWord(f.app) && (f.pid.Some? ==> TagWord(f.pid.value))
    ensures var tag := Tag(f); var bracket := Find(tag, '[', 0);
            && (forall k | 0 <= k < |tag| :: tag[k] != ':' && tag[k] != ' ')
            && NonEmpty(f.app) == Some(f.app) && NonEmpty(if f.pid.Some? then f.pid.value else "") == f.pid
            && if f.pid.Some?
               then bracket < |tag| && tag[|tag| - 1] == ']' && tag[..bracket] == f.app
                    && bracket + 1 <= |tag| - 1 && tag[bracket + 1..|tag| - 1] == f.pid.value
               else bracket == |tag| && tag == f.app
  {
    assert f.app != "" && (f.pid.Some? ==> f.pid.value != "");
    hide Find, TagWord;
    if f.pid.Some? {
      BracketedTag(f.app, f.pid.value);
    } else {
      BareTag(f.app);
      assert f.app + "" == f.app;
    }
  }

  lemma {:induction false} Stripped3164(f: Fields)
    ensures Stripped(Format3164(f)) == Format3164(f.(message := Stripped(f.message)))
  {
    assert Tag(f) == Tag(f.(message := Stripped(f.message)));
    hide Stripped, ToString, Tag;
    var m := f.message;
    var t1 := ": " + m;
    var t2 := Tag(f) + t1;
    var t3 := " " + t2;
    var t4 := f.hostname + t3;
    var t5 := " " + t4;
    var t6 := f.timestamp + t5;
    StrippedBehind(": ", m);
    StrippedBehind(Tag(f), t1);
    StrippedBehind(" ", t2);
    StrippedBehind(f.hostname, t3);
    StrippedBehind(" ", t4);
    StrippedBehind(f.timestamp, t5);
    StrippedBehind(Pri(f), t6);
  }

  /** No printed RFC 3164 message is taken for RFC 5424: a month stands where the version would. */
  lemma {:induction false} NotTaken5424(f: Fields, t: LocalTime)
    requires 0 <= f.facility <= 23 && 0 <= f.severity <= 7 && t.Calendar() && f.timestamp == Timestamp3164(t)
    ensures Taken5424(Format3164(f)) == None
  {
    var rest := f.timestamp + (" " + (f.hostname + (" " + (Tag(f) + (": " + f.message)))));
    hide PriOf, Pri, DigitRun;
    PriBack(f, rest);
    TimestampShape(t);
    MonthsAreNoDigits(t.month);
    assert rest[0] == MONTHS[t.month][0];
    RunAt(rest, 0, 0);
  }

  lemma {:induction false} MonthsAreNoDigits(m: nat)
    requires m < 12
    ensures |MONTHS[m]| == 3 && !IsDigit(MONTHS[m][0])
  {}

  lemma {:induction false} HostBack(host: string, rest: string)
    requires NoSpace(host)
    ensures Find(host + (" " + rest), ' ', 0) == |host|
    ensures (host + (" " + rest))[..|host|] == host && (host + (" " + rest))[|host| + 1..] == rest
  {
    var s := host + (" " + rest);
    hide Find;
    assert forall k | 0 <= k < |host| :: s[k] == host[k] && host[k] != ' ';
    FindAt(s, ' ', 0, |host|);
    assert s[|host| + 1..] == rest;
  }

  lemma {:induction false} Taken3164Back(f: Fields, t: LocalTime)
    requires 0 <= f.facility <= 23 && 0 <= f.severity <= 7 && t.Calendar() && f.timestamp == Timestamp3164(t)
    requires NoSpace(f.hostname) && TagWord(f.app) && (f.pid.Some? ==> TagWord(f.pid.value))
    ensures Taken3164(Format3164(f)) ==
      if t.second > 59 then None
      else Some(
        WithPri(BLANK, f.facility * 8 + f.severity).(
          protocol := RFC3164, raw := Format3164(f), timestamp := Some(f.timestamp),
          hostname := Some(f.hostname), appName := Some(f.app), procId := f.pid, message := f.message))
  {
    hide PriOf, Pri, Timestamp, TagOf, Tag, NoSpace, TagWord, WithPri, Timestamp3164, Find;
    var tagged := Tag(f) + (": " + f.message);
    var hosted := f.hostname + (" " + tagged);
    PriBack(f, f.timestamp + (" " + hosted));
    TimestampBack(t, hosted);
    HostBack(f.hostname, tagged);
    TagBack(f, f.message);
  }

  /**
   What is printed as RFC 3164 is never parsed as RFC 5424, and it is parsed as RFC 3164, with every field
   back and the text without its trailing line ends, if and only if its second is not a leap second.
   */
  lemma {:induction false} RoundTrip3164(f: Fields, t: LocalTime)
    requires Accepted(f, true) && t.Calendar() && f.timestamp == Timestamp3164(t)
    ensures var m := Parse(Format3164(f));
            && m.protocol != RFC5424
            && (m.protocol == RFC3164 <==> t.second <= 59)
            && (t.second <= 59 ==>
                  && m.facility == Some(f.facility) && m.severity == Some(f.severity) && Named(m, f)
                  && m.timestamp == Some(f.timestamp) && m.hostname == Some(f.hostname)
                  && m.appName == Some(f.app) && m.procId == f.pid && m.message == Stripped(f.message))
  {
    hide Accepted, Format3164, Stripped, Taken5424, Taken3164, WithPri, NoSpace, TagWord, Timestamp3164,
      LocalTime.Calendar;
    WordsHaveNoSpace(f, true);
    TagWords(f);
    PriMeans(BLANK, f);
    Stripped3164(f);
    var g := f.(message := Stripped(f.message));
    NotTaken5424(g, t);
    Taken3164Back(g, t);
  }

  lemma {:induction false} TagWords(f: Fields)
    requires Accepted(f, true)
    ensures TagWord(f.app) && (f.pid.Some? ==> TagWord(f.pid.value))
  {
    AcceptedWords(f, true);
    WordsHaveNoSpace(f, true);
    hide Accepted, NoSpace, NoneOf, PrintableToken;
  }
}
