/** The printer: the two syslog wire formats a datagram can be sent in. A char stands for one byte. */
module SyslogFormat {
  import opened Options

  datatype Fields = Fields(
    facility: int, severity: int, timestamp: string, hostname: string, app: string,
    pid: Option<string>, msgid: Option<string>, message: string)

  // ---- Numbers ---------------------------------------------------------------------------

  predicate IsDigit(c: char) {
    '0' <= c <= '9'
  }

  function Digit(n: int): (c: char)
    requires 0 <= n <= 9
    ensures IsDigit(c) && c as int - '0' as int == n
  {
    '0' + n as char
  }

  function Decimal(n: nat): (s: string)
    ensures s != "" && forall i | 0 <= i < |s| :: IsDigit(s[i])
  {
    if n < 10 then [Digit(n)] else Decimal(n / 10) + [Digit(n % 10)]
  }

  /** What a run of digits says. */
  function Number(s: string): int
    requires forall i | 0 <= i < |s| :: IsDigit(s[i])
  {
    if s == "" then 0 else Number(s[..|s| - 1]) * 10 + (s[|s| - 1] as int - '0' as int)
  }

  lemma {:induction false} NumberOfDecimal(n: nat)
    ensures Number(Decimal(n)) == n
  {
    if n < 10 {
      assert [Digit(n)][..0] == "";
    } else {
      NumberOfDecimal(n / 10);
      assert Decimal(n)[..|Decimal(n)| - 1] == Decimal(n / 10);
    }
  }

  function Fill(n: nat, c: char): (s: string)
    ensures |s| == n && forall i | 0 <= i < n :: s[i] == c
  {
    if n == 0 then "" else [c] + Fill(n - 1, c)
  }

  function Padded(value: nat, width: nat, fill: char): string {
    var s := Decimal(value);
    if |s| >= width then s else Fill(width - |s|, fill) + s
  }

  /** A number of at most two digits, padded to two. */
  lemma {:induction false} PaddedTwo(n: nat, fill: char)
    requires n < 100
    ensures Padded(n, 2, fill) == [if n < 10 then fill else Digit(n / 10), Digit(n % 10)]
  {
    var ten := n / 10;
    assert n >= 10 ==> Decimal(n) == Decimal(ten) + [Digit(n % 10)] && Decimal(ten) == [Digit(ten)];
    assert n < 10 ==> Fill(1, fill) == [fill];
  }

  // ---- The two formats -----------------------------------------------------------------------

  function ToString(n: int): string {
    if n < 0 then "-" + Decimal(-n) else Decimal(n)
  }

  function Pri(f: Fields): string {
    "<" + (ToString(f.facility * 8 + f.severity) + ">")
  }

  function Nilable(v: Option<string>): string {
    if v.Some? then v.value else "-"
  }

  function Format5424(f: Fields): string {
    Pri(f) + ("1 " + (f.timestamp + (" " + (f.hostname + (" " + (f.app + (" " + (Nilable(f.pid)
      + (" " + (Nilable(f.msgid) + (" " + ("- " + f.message))))))))))))
  }

  function Tag(f: Fields): string {
    f.app + if f.pid.Some? then "[" + (f.pid.value + "]") else ""
  }

  function Format3164(f: Fields): string {
    Pri(f) + (f.timestamp + (" " + (f.hostname + (" " + (Tag(f) + (": " + f.message))))))
  }

  const MONTHS: seq<string> := ["Jan", "Feb", "Mar", "Apr", "May", "Jun", "Jul", "Aug", "Sep", "Oct", "Nov", "Dec"]

  /** A broken-down time; a leap second makes the second 60. */
  datatype LocalTime = LocalTime(month: nat, day: nat, hour: nat, minute: nat, second: nat) {
    predicate Calendar() {
      month < 12 && 1 <= day <= 31 && hour < 24 && minute < 60 && second <= 60
    }
  }

  function Timestamp3164(t: LocalTime): string
    requires t.month < 12
  {
    MONTHS[t.month] + (" " + (Padded(t.day, 2, ' ') + (" " + (Padded(t.hour, 2, '0') + (":"
      + (Padded(t.minute, 2, '0') + (":" + Padded(t.second, 2, '0'))))))))
  }

  // ---- Validation -------------------------------------------------------------------------------

  predicate PrintableToken(s: string) {
    s != "" && forall i | 0 <= i < |s| :: 33 <= s[i] as int <= 126
  }

  method IsPrintableAsciiToken(s: string) returns (ok: bool)
    ensures ok == PrintableToken(s)
  {
    if s == "" {
      return false;
    }
    for i := 0 to |s|
      invariant forall j | 0 <= j < i :: 33 <= s[j] as int <= 126
    {
      if (s[i] as int) < 33 || (s[i] as int) > 126 {
        return false;
      }
    }
    return true;
  }

  predicate NoneOf(s: string, forbidden: string) {
    forall i | 0 <= i < |s| :: s[i] !in forbidden
  }

  method ContainsNoneOf(s: string, forbidden: string) returns (ok: bool)
    ensures ok == NoneOf(s, forbidden)
  {
    for i := 0 to |s|
      invariant forall j | 0 <= j < i :: s[j] !in forbidden
    {
      if s[i] in forbidden {
        return false;
      }
    }
    return true;
  }

  datatype Problem =
    | FacilityRange | SeverityRange | HostnameToken | AppToken | PidToken
    | AppTag | PidTag | MsgidUnused | TagLength
    | HostnameLength | AppLength | PidLength | MsgidToken | MsgidLength
    | MessageEmpty

  predicate Has(f: Fields, rfc3164: bool, p: Problem) {
    match p
    case FacilityRange => !(0 <= f.facility <= 23)
    case SeverityRange => !(0 <= f.severity <= 7)
    case HostnameToken => !PrintableToken(f.hostname)
    case AppToken => !PrintableToken(f.app)
    case PidToken => f.pid.Some? && !PrintableToken(f.pid.value)
    case AppTag => rfc3164 && !NoneOf(f.app, "[]:")
    case PidTag => rfc3164 && f.pid.Some? && !NoneOf(f.pid.value, "[]:")
    case MsgidUnused => rfc3164 && f.msgid.Some?
    case TagLength => rfc3164 && |Tag(f)| > 32
    case HostnameLength => !rfc3164 && |f.hostname| > 255
    case AppLength => !rfc3164 && |f.app| > 48
    case PidLength => !rfc3164 && f.pid.Some? && |f.pid.value| > 128
    case MsgidToken => !rfc3164 && f.msgid.Some? && !PrintableToken(f.msgid.value)
    case MsgidLength => !rfc3164 && f.msgid.Some? && |f.msgid.value| > 32
    case MessageEmpty => f.message == ""
  }

  /** The order problems are looked for in. */
  function Rank(p: Problem): nat {
    match p
    case FacilityRange => 0
    case SeverityRange => 1
    case HostnameToken => 2
    case AppToken => 3
    case PidToken => 4
    case AppTag => 5
    case PidTag => 6
    case MsgidUnused => 7
    case TagLength => 8
    case HostnameLength => 5
    case AppLength => 6
    case PidLength => 7
    case MsgidToken => 8
    case MsgidLength => 9
    case MessageEmpty => 10
  }

  predicate Accepted(f: Fields, rfc3164: bool) {
    forall p: Problem :: !Has(f, rfc3164, p)
  }

  /** Refuses fields that could not be sent as what they are, naming the first thing wrong with them. */
  method ValidateFields(f: Fields, rfc3164: bool) returns (problem: Option<Problem>)
    ensures problem.Some? ==> Has(f, rfc3164, problem.value)
    ensures problem == None ==> Accepted(f, rfc3164)
    ensures forall p: Problem | problem.Some? && Rank(p) < Rank(problem.value) :: !Has(f, rfc3164, p)
  {
    if f.facility < 0 || f.facility > 23 {
      return Some(FacilityRange);
    }
    if f.severity < 0 || f.severity > 7 {
      return Some(SeverityRange);
    }
    var ok := IsPrintableAsciiToken(f.hostname);
    if !ok {
      return Some(HostnameToken);
    }
    ok := IsPrintableAsciiToken(f.app);
    if !ok {
      return Some(AppToken);
    }
    if f.pid.Some? {
      ok := IsPrintableAsciiToken(f.pid.value);
      if !ok {
        return Some(PidToken);
      }
    }
    if rfc3164 {
      ok := ContainsNoneOf(f.app, "[]:");
      if !ok {
        return Some(AppTag);
      }
      if f.pid.Some? {
        ok := ContainsNoneOf(f.pid.value, "[]:");
        if !ok {
          return Some(PidTag);
        }
      }
      if f.msgid.Some? {
        return Some(MsgidUnused);
      }
      var tag := if f.pid.Some? then f.app + "[" + f.pid.value + "]" else f.app;
      assert tag == Tag(f);
      if |tag| > 32 {
        return Some(TagLength);
      }
    } else {
      if |f.hostname| > 255 {
        return Some(HostnameLength);
      }
      if |f.app| > 48 {
        return Some(AppLength);
      }
      if f.pid.Some? && |f.pid.value| > 128 {
        return Some(PidLength);
      }
      if f.msgid.Some? {
        ok := IsPrintableAsciiToken(f.msgid.value);
        if !ok {
          return Some(MsgidToken);
        }
        if |f.msgid.value| > 32 {
          return Some(MsgidLength);
        }
      }
    }
    if f.message == "" {
      return Some(MessageEmpty);
    }
    return None;
  }
}
