/** The parser: what a received datagram is taken for, and what its fields are. */
module SyslogParser {
  import opened Options
  import opened SyslogFormat
  import opened SyslogNames

  datatype Protocol = RFC3164 | RFC5424 | Unknown

  datatype Message = Message(
    protocol: Protocol, raw: string, pri: Option<int>, facility: Option<int>, severity: Option<int>,
    facilityName: Option<string>, severityName: Option<string>, version: Option<int>, timestamp: Option<string>,
    hostname: Option<string>, appName: Option<string>, procId: Option<string>, msgId: Option<string>, message: string)

  /** What a step of the parser took, and the text after it. */
  datatype Parsed<T> = Parsed(value: T, rest: string)

  // ---- Runs of characters ----------------------------------------------------------------

  /** The end of the run of digits from i. */
  function DigitRun(s: string, i: nat): (j: nat)
    requires i <= |s|
    ensures i <= j <= |s| && (forall k | i <= k < j :: IsDigit(s[k])) && (j < |s| ==> !IsDigit(s[j]))
    decreases |s| - i
  {
    if i < |s| && IsDigit(s[i]) then DigitRun(s, i + 1) else i
  }

  /** The first place from i on where c is not. */
  function SkipRun(s: string, c: char, i: nat): (j: nat)
    requires i <= |s|
    ensures i <= j <= |s| && (forall k | i <= k < j :: s[k] == c) && (j < |s| ==> s[j] != c)
    decreases |s| - i
  {
    if i < |s| && s[i] == c then SkipRun(s, c, i + 1) else i
  }

  /** The first place from i on where c is, or the end. */
  function Find(s: string, c: char, i: nat): (j: nat)
    requires i <= |s|
    ensures i <= j <= |s| && (forall k | i <= k < j :: s[k] != c) && (j < |s| ==> s[j] == c)
    decreases |s| - i
  {
    if i < |s| && s[i] != c then Find(s, c, i + 1) else i
  }

  method FindFirst(s: string, c: char) returns (j: nat)
    ensures j == Find(s, c, 0)
  {
    j := 0;
    while j < |s| && s[j] != c
      invariant j <= |s| && Find(s, c, 0) == Find(s, c, j)
    {
      j := j + 1;
    }
  }

  function Count(s: string, c: char): nat {
    if s == "" then 0 else (if s[0] == c then 1 else 0) + Count(s[1..], c)
  }

  method CountOf(s: string, c: char) returns (n: nat)
    ensures n == Count(s, c)
  {
    n := 0;
    var i := 0;
    assert s[0..] == s;
    while i < |s|
      invariant 0 <= i <= |s| && n + Count(s[i..], c) == Count(s, c)
    {
      assert s[i..][1..] == s[i + 1..];
      if s[i] == c {
        n := n + 1;
      }
      i := i + 1;
    }
  }

  // ---- PRI and tokens -----------------------------------------------------------------------

  /** <N>, at most three digits and at most 191. */
  function PriOf(s: string): Option<Parsed<int>> {
    if s == "" || s[0] != '<' then None
    else
      var e := if DigitRun(s, 1) > 4 then 4 else DigitRun(s, 1);
      if e == 1 || e == |s| || s[e] != '>' || Number(s[1..e]) > 191 then None
      else Some(Parsed(Number(s[1..e]), s[e + 1..]))
  }

  lemma {:induction false} OneMore(s: string, i: nat)
    requires 1 <= i < |s|
    ensures s[1..i + 1][..i - 1] == s[1..i] && s[1..i + 1][i - 1] == s[i]
  {}

  method ParsePri(sv0: string) returns (pri: int, sv: string)
    ensures if PriOf(sv0).None? then pri == -1 else pri >= 0 && PriOf(sv0) == Some(Parsed(pri, sv))
  {
    sv := sv0;
    if sv == "" || sv[0] != '<' {
      return -1, sv;
    }
    sv := sv[1..];
    pri := 0;
    var digits := 0;
    while sv != "" && IsDigit(sv[0]) && digits < 3
      invariant 0 <= digits <= 3 && digits + 1 <= |sv0| && sv == sv0[digits + 1..]
      invariant forall k | 1 <= k < digits + 1 :: IsDigit(sv0[k])
      invariant pri >= 0 && pri == Number(sv0[1..digits + 1])
      decreases |sv|
    {
      OneMore(sv0, digits + 1);
      pri := pri * 10 + (sv[0] as int - '0' as int);
      sv := sv[1..];
      digits := digits + 1;
    }
    ghost var run := DigitRun(sv0, 1);
    assert digits < 3 ==> run == digits + 1;
    assert digits == 3 ==> run >= 4;
    if digits == 0 || sv == "" || sv[0] != '>' {
      return -1, sv;
    }
    if pri > 191 {
      return -1, sv;
    }
    sv := sv[1..];
  }

  /** The next word; nothing for "-" and at the end of the text. */
  function NextWord(s: string): Parsed<Option<string>> {
    if s == "" then Parsed(None, "")
    else
      var e := Find(s, ' ', 0);
      Parsed(if s[..e] == "-" then None else Some(s[..e]), if e == |s| then "" else s[e + 1..])
  }

  method ParseNilable(sv0: string) returns (tok: Option<string>, sv: string)
    ensures NextWord(sv0) == Parsed(tok, sv)
  {
    sv := sv0;
    if sv == "" {
      return None, sv;
    }
    var end := FindFirst(sv, ' ');
    var t;
    if end == |sv| {
      t := sv;
      sv := "";
    } else {
      t := sv[..end];
      sv := sv[end + 1..];
    }
    assert t == sv0[..end];
    if t == "-" {
      return None, sv;
    }
    return Some(t), sv;
  }

  // ---- The RFC 3164 timestamp and tag ----------------------------------------------------------

  predicate MonthPrefix(s: string) {
    |s| >= 3 && s[..3] in MONTHS
  }

  method IsMonthPrefix(s: string) returns (found: bool)
    ensures found == MonthPrefix(s)
  {
    if |s| < 3 {
      return false;
    }
    for i := 0 to |MONTHS|
      invariant forall j | 0 <= j < i :: MONTHS[j] != s[..3]
    {
      var m := MONTHS[i];
      assert |m| == 3;
      if s[0] == m[0] && s[1] == m[1] && s[2] == m[2] {
        assert s[..3] == m;
        return true;
      }
    }
    return false;
  }

  function TwoDigits(a: char, b: char): int {
    (a as int - '0' as int) * 10 + (b as int - '0' as int)
  }

  /** hh:mm:ss, with no leap second. */
  predicate ClockTime(t: string) {
    && |t| == 8 && t[2] == ':' && t[5] == ':'
    && IsDigit(t[0]) && IsDigit(t[1]) && IsDigit(t[3]) && IsDigit(t[4]) && IsDigit(t[6]) && IsDigit(t[7])
    && TwoDigits(t[0], t[1]) <= 23 && TwoDigits(t[3], t[4]) <= 59 && TwoDigits(t[6], t[7]) <= 59
  }

  predicate DayOfMonth(d: string) {
    && 1 <= |d| <= 2 && (forall i | 0 <= i < |d| :: IsDigit(d[i]))
    && 1 <= Number(d) <= 31
  }

  /** Where a timestamp at the start of s ends: month, spaces, day, spaces, clock time; or -1. */
  function TimestampEnd(s: string): (p: int)
    ensures -1 <= p <= |s|
  {
    if !MonthPrefix(s) then -1
    else
      var day0 := SkipRun(s, ' ', 3);
      var day1 := DigitRun(s, day0);
      var t0 := SkipRun(s, ' ', day1);
      if day0 > 3 && DayOfMonth(s[day0..day1]) && t0 > day1 && t0 + 8 <= |s| && ClockTime(s[t0..t0 + 8])
      then t0 + 8 else -1
  }

  function DropSpace(s: string): string {
    if s != "" && s[0] == ' ' then s[1..] else s
  }

  function Timestamp(s: string): Option<Parsed<string>> {
    var p := TimestampEnd(s);
    if p < 0 then None else Some(Parsed(s[..p], DropSpace(s[p..])))
  }

  lemma {:induction false} DayNumber(d: string)
    requires 1 <= |d| <= 2 && forall i | 0 <= i < |d| :: IsDigit(d[i])
    ensures Number(d) == if |d| == 1 then d[0] as int - '0' as int else TwoDigits(d[0], d[1])
  {
    var init := d[..|d| - 1];
    assert init == if |d| == 1 then "" else [d[0]];
    assert |d| == 2 ==> init[..0] == "" && Number(init) == d[0] as int - '0' as int;
  }

  method Skip(s: string, c: char, p0: nat) returns (p: nat)
    requires p0 <= |s|
    ensures p == SkipRun(s, c, p0)
  {
    p := p0;
    while p < |s| && s[p] == c
      invariant p0 <= p <= |s| && SkipRun(s, c, p0) == SkipRun(s, c, p)
    {
      p := p + 1;
    }
  }

  method SkipDigits(s: string, p0: nat) returns (p: nat)
    requires p0 <= |s|
    ensures p == DigitRun(s, p0)
  {
    p := p0;
    while p < |s| && IsDigit(s[p])
      invariant p0 <= p <= |s| && DigitRun(s, p0) == DigitRun(s, p)
    {
      p := p + 1;
    }
  }

  method IsClockTime(t: string) returns (ok: bool)
    requires |t| == 8
    ensures ok == ClockTime(t)
  {
    if !IsDigit(t[0]) || !IsDigit(t[1]) || t[2] != ':' || !IsDigit(t[3]) || !IsDigit(t[4]) || t[5] != ':'
       || !IsDigit(t[6]) || !IsDigit(t[7])
    {
      return false;
    }
    if TwoDigits(t[0], t[1]) > 23 || TwoDigits(t[3], t[4]) > 59 || TwoDigits(t[6], t[7]) > 59 {
      return false;
    }
    return true;
  }

  method Parse3164Timestamp(sv0: string) returns (ts: Option<string>, sv: string)
    ensures if ts == None then Timestamp(sv0) == None && sv == sv0 else Timestamp(sv0) == Some(Parsed(ts.value, sv))
  {
    hide MonthPrefix, Number, DigitRun, SkipRun, ClockTime;
    sv := sv0;
    var month := IsMonthPrefix(sv);
    if !month {
      return None, sv;
    }
    var p := 3;
    if p >= |sv| || sv[p] != ' ' {
      return None, sv;
    }
    p := Skip(sv, ' ', p);
    var day0 := p;
    p := SkipDigits(sv, p);
    if p - day0 == 0 || p - day0 > 2 {
      return None, sv;
    }
    DayNumber(sv[day0..p]);
    var day := if p - day0 == 1 then sv[day0] as int - '0' as int else TwoDigits(sv[day0], sv[day0 + 1]);
    if day < 1 || day > 31 {
      return None, sv;
    }
    if p >= |sv| || sv[p] != ' ' {
      return None, sv;
    }
    p := Skip(sv, ' ', p);
    if p + 8 > |sv| {
      return None, sv;
    }
    var t := sv[p..p + 8];
    var clock := IsClockTime(t);
    if !clock {
      return None, sv;
    }
    p := p + 8;
    ts := Some(sv[..p]);
    sv := sv[p..];
    if sv != "" && sv[0] == ' ' {
      sv := sv[1..];
    }
  }

  function NonEmpty(s: string): Option<string> {
    if s == "" then None else Some(s)
  }

  datatype AppPid = AppPid(app: Option<string>, pid: Option<string>)

  /** "app:" or "app[pid]:"; a colon that comes only after a space is not a tag's. */
  function TagOf(s: string): Parsed<AppPid> {
    var colon, space := Find(s, ':', 0), Find(s, ' ', 0);
    if colon == |s| || space < colon then Parsed(AppPid(None, None), s)
    else
      var tag := s[..colon];
      var bracket := Find(tag, '[', 0);
      Parsed(
        if bracket < |tag| && tag[|tag| - 1] == ']'
        then AppPid(NonEmpty(tag[..bracket]), NonEmpty(tag[bracket + 1..|tag| - 1]))
        else AppPid(NonEmpty(tag), None),
        DropSpace(s[colon + 1..]))
  }

  method Parse3164Tag(sv0: string) returns (app: Option<string>, pid: Option<string>, sv: string)
    ensures TagOf(sv0) == Parsed(AppPid(app, pid), sv)
  {
    sv := sv0;
    var colon := FindFirst(sv, ':');
    var space := FindFirst(sv, ' ');
    if colon == |sv| || space < colon {
      return None, None, sv;
    }
    var tagPart := sv[..colon];
    sv := sv[colon + 1..];
    if sv != "" && sv[0] == ' ' {
      sv := sv[1..];
    }
    var bracket := FindFirst(tagPart, '[');
    if bracket < |tagPart| && tagPart[|tagPart| - 1] == ']' {
      return NonEmpty(tagPart[..bracket]), NonEmpty(tagPart[bracket + 1..|tagPart| - 1]), sv;
    }
    return NonEmpty(tagPart), None, sv;
  }

  // ---- Messages -----------------------------------------------------------------------------------

  const BLANK := Message(Unknown, "", None, None, None, None, None, None, None, None, None, None, None, "")

  function WithPri(m: Message, pri: int): Message
    requires 0 <= pri <= 191
  {
    m.(pri := Some(pri), facility := Some(pri / 8), severity := Some(pri % 8),
       facilityName := Some(FACILITY_NAMES[pri / 8]), severityName := Some(SEVERITY_NAMES[pri % 8]))
  }

  lemma {:induction false} PriRange(s: string)
    ensures PriOf(s).Some? ==> 0 <= PriOf(s).value.value <= 191
  {
    if PriOf(s).Some? {
      var e := if DigitRun(s, 1) > 4 then 4 else DigitRun(s, 1);
      NumberNat(s[1..e]);
    }
  }

  lemma {:induction false} NumberNat(d: string)
    requires forall i | 0 <= i < |d| :: IsDigit(d[i])
    ensures Number(d) >= 0
  {
    if d != "" {
      NumberNat(d[..|d| - 1]);
    }
  }

  /** The text after the version: one or two digits that say 1, and a space. */
  function AfterVersion(s: string): Option<string> {
    var vi := DigitRun(s, 0);
    if vi == 0 || vi > 2 || vi == |s| || s[vi] != ' ' || Number(s[..vi]) != 1 then None else Some(s[vi + 1..])
  }

  /** The five header fields, and the text after them. */
  function Header(s: string): Parsed<seq<Option<string>>> {
    var ts := NextWord(s);
    var host := NextWord(ts.rest);
    var app := NextWord(host.rest);
    var pid := NextWord(app.rest);
    var msgid := NextWord(pid.rest);
    Parsed([ts.value, host.value, app.value, pid.value, msgid.value], msgid.rest)
  }

  function Taken5424(data: string): Option<Message> {
    if PriOf(data).None? then None
    else
      var v := AfterVersion(PriOf(data).value.rest);
      if v.None? || Count(v.value, ' ') < 4 then None
      else
        PriRange(data);
        var h := Header(v.value);
        Some(WithPri(BLANK, PriOf(data).value.value).(
          protocol := RFC5424, raw := data, version := Some(1), timestamp := h.value[0], hostname := h.value[1],
          appName := h.value[2], procId := h.value[3], msgId := h.value[4], message := h.rest))
  }

  function Taken3164(data: string): Option<Message> {
    if PriOf(data).None? then None
    else
      var ts := Timestamp(PriOf(data).value.rest);
      if ts == None then None
      else
        PriRange(data);
        var s := ts.value.rest;
        var sp := Find(s, ' ', 0);
        var tag := TagOf(if sp == |s| then "" else s[sp + 1..]);
        Some(WithPri(BLANK, PriOf(data).value.value).(
          protocol := RFC3164, raw := data, timestamp := Some(ts.value.value), hostname := NonEmptyUnless(s, sp),
          appName := tag.value.app, procId := tag.value.pid, message := tag.rest))
  }

  /** A word before a space is the hostname even when it is empty; the end of the text is one only if not. */
  function NonEmptyUnless(s: string, sp: nat): Option<string>
    requires sp <= |s|
  {
    if sp == |s| then NonEmpty(s) else Some(s[..sp])
  }

  function Stripped(s: string): string {
    if s != "" && (s[|s| - 1] == '\r' || s[|s| - 1] == '\n') then Stripped(s[..|s| - 1]) else s
  }

  /** What a datagram is: RFC 5424 if it can be, else RFC 3164 if it can be, else only its own text. */
  function Parse(data: string): Message {
    var s := Stripped(data);
    if Taken5424(s).Some? then Taken5424(s).value
    else if Taken3164(s).Some? then Taken3164(s).value
    else BLANK.(raw := s, message := s)
  }

  lemma {:induction false} HeaderWords(
    s: string, ts: Option<string>, host: Option<string>, app: Option<string>, pid: Option<string>, msgid: Option<string>,
    rest: string)
    requires
      var a := NextWord(s); var b := NextWord(a.rest); var c := NextWord(b.rest); var d := NextWord(c.rest);
      a.value == ts && b.value == host && c.value == app && d.value == pid && NextWord(d.rest) == Parsed(msgid, rest)
    ensures Header(s) == Parsed([ts, host, app, pid, msgid], rest)
  {
    hide NextWord;
  }

  method TryRfc5424(data: string, msg0: Message) returns (ok: bool, msg: Message)
    requires msg0 == BLANK
    ensures if ok then Taken5424(data) == Some(msg) else Taken5424(data) == None && msg == msg0
  {
    msg := msg0;
    var pri, sv := ParsePri(data);
    if pri < 0 {
      return false, msg;
    }
    var vi := SkipDigits(sv, 0);
    if vi == 0 || vi > 2 || vi >= |sv| || sv[vi] != ' ' {
      return false, msg;
    }
    var ver := 0;
    for j := 0 to vi
      invariant ver == Number(sv[..j])
    {
      assert sv[..j + 1][..j] == sv[..j];
      ver := ver * 10 + (sv[j] as int - '0' as int);
    }
    if ver != 1 {
      return false, msg;
    }
    sv := sv[vi + 1..];
    var spaces := CountOf(sv, ' ');
    if spaces < 4 {
      return false, msg;
    }
    PriRange(data);
    ghost var header := sv;
    hide Header, Count, PriOf, WithPri, DigitRun;
    var timestamp, hostname, appName, procId, msgId;
    timestamp, sv := ParseNilable(sv);
    hostname, sv := ParseNilable(sv);
    appName, sv := ParseNilable(sv);
    procId, sv := ParseNilable(sv);
    msgId, sv := ParseNilable(sv);
    HeaderWords(header, timestamp, hostname, appName, procId, msgId, sv);
    msg := WithPri(msg, pri).(protocol := RFC5424, raw := data);
    msg := msg.(version := Some(ver), timestamp := timestamp, hostname := hostname);
    msg := msg.(appName := appName, procId := procId, msgId := msgId, message := sv);
    return true, msg;
  }

  method TryRfc3164(data: string, msg0: Message) returns (ok: bool, msg: Message)
    requires msg0 == BLANK
    ensures if ok then Taken3164(data) == Some(msg) else Taken3164(data) == None && msg == msg0
  {
    msg := msg0;
    var pri, sv := ParsePri(data);
    if pri < 0 {
      return false, msg;
    }
    var ts;
    ts, sv := Parse3164Timestamp(sv);
    if ts == None {
      return false, msg;
    }
    var hostname: Option<string> := None;
    var sp := FindFirst(sv, ' ');
    if sp == |sv| {
      if sv != "" {
        hostname := Some(sv);
      }
      sv := "";
    } else {
      hostname := Some(sv[..sp]);
      sv := sv[sp + 1..];
    }
    PriRange(data);
    var appName, procId;
    appName, procId, sv := Parse3164Tag(sv);
    msg := WithPri(msg, pri).(protocol := RFC3164, raw := data);
    msg := msg.(timestamp := ts, hostname := hostname, appName := appName, procId := procId, message := sv);
    return true, msg;
  }

  method ParseSyslog(data0: string) returns (msg: Message)
    ensures msg == Parse(data0)
  {
    var data := data0;
    while data != "" && (data[|data| - 1] == '\r' || data[|data| - 1] == '\n')
      invariant Stripped(data) == Stripped(data0)
      decreases |data|
    {
      data := data[..|data| - 1];
    }
    msg := BLANK;
    var ok;
    ok, msg := TryRfc5424(data, msg);
    if ok {
      return msg;
    }
    ok, msg := TryRfc3164(data, msg);
    if ok {
      return msg;
    }
    msg := msg.(protocol := Unknown, raw := data, message := data);
  }
}
