/** The names of facilities and severities: those that are written, and those that are taken in their place. */
module SyslogNames {
  import opened Options

  const FACILITY_NAMES: seq<string> := [
    "kern", "user", "mail", "daemon", "auth", "syslog", "lpr", "news",
    "uucp", "clock", "authpriv", "ftp", "ntp", "audit", "alert", "clock2",
    "local0", "local1", "local2", "local3", "local4", "local5", "local6", "local7"]

  const SEVERITY_NAMES: seq<string> := [
    "EMERGENCY", "ALERT", "CRITICAL", "ERROR", "WARNING", "NOTICE", "INFO", "DEBUG"]

  datatype Alias = Alias(name: string, code: int)

  const FACILITY_ALIASES: seq<Alias> := [
    Alias("kern", 0), Alias("kernel", 0), Alias("user", 1), Alias("mail", 2), Alias("daemon", 3),
    Alias("system", 3), Alias("auth", 4), Alias("security", 4), Alias("syslog", 5), Alias("lpr", 6),
    Alias("news", 7), Alias("uucp", 8), Alias("clock", 9), Alias("cron", 9), Alias("authpriv", 10),
    Alias("ftp", 11), Alias("ntp", 12), Alias("audit", 13), Alias("logaudit", 13), Alias("alert", 14),
    Alias("logalert", 14), Alias("clock2", 15), Alias("local0", 16), Alias("local1", 17), Alias("local2", 18),
    Alias("local3", 19), Alias("local4", 20), Alias("local5", 21), Alias("local6", 22), Alias("local7", 23)]

  const SEVERITY_ALIASES: seq<Alias> := [
    Alias("emergency", 0), Alias("emerg", 0), Alias("panic", 0), Alias("alert", 1), Alias("critical", 2),
    Alias("crit", 2), Alias("error", 3), Alias("err", 3), Alias("warning", 4), Alias("warn", 4),
    Alias("notice", 5), Alias("info", 6), Alias("debug", 7), Alias("informational", 6)]

  /** tolower in the C locale. */
  function Lower(c: char): char {
    if 'A' <= c <= 'Z' then (c as int + 32) as char else c
  }

  predicate SameName(a: string, b: string) {
    |a| == |b| && forall i | 0 <= i < |a| :: Lower(a[i]) == Lower(b[i])
  }

  method EqualsIgnoreCase(a: string, b: string) returns (same: bool)
    ensures same == SameName(a, b)
  {
    if |a| != |b| {
      return false;
    }
    for i := 0 to |a|
      invariant forall j | 0 <= j < i :: Lower(a[j]) == Lower(b[j])
    {
      if Lower(a[i]) != Lower(b[i]) {
        return false;
      }
    }
    return true;
  }

  /** The code of the first entry of that name. */
  function CodeOf(table: seq<Alias>, name: string): Option<int> {
    if table == [] then None
    else if SameName(table[0].name, name) then Some(table[0].code)
    else CodeOf(table[1..], name)
  }

  method Lookup(table: seq<Alias>, name: string) returns (code: Option<int>)
    ensures code == CodeOf(table, name)
  {
    assert table[0..] == table;
    for i := 0 to |table|
      invariant CodeOf(table[i..], name) == CodeOf(table, name)
    {
      assert table[i..][1..] == table[i + 1..];
      var same := EqualsIgnoreCase(table[i].name, name);
      if same {
        return Some(table[i].code);
      }
    }
    return None;
  }

  lemma {:induction false} CodeAt(table: seq<Alias>, name: string, k: nat)
    requires k < |table| && SameName(table[k].name, name)
    requires forall j | 0 <= j < k :: Differ(table[j].name, name)
    ensures CodeOf(table, name) == Some(table[k].code)
  {
    if k > 0 {
      CodeAt(table[1..], name, k - 1);
    }
  }

  /** What tells two names apart. */
  predicate Differ(a: string, b: string) {
    || |a| != |b|
    || (a != "" && (Lower(a[0]) != Lower(b[0]) || Lower(a[|a| - 1]) != Lower(b[|a| - 1])))
    || (|a| > 1 && Lower(a[1]) != Lower(b[1]))
  }

  /** The entry with the name of facility n. */
  function Entry(n: nat): nat
    requires n < 24
  {
    [0, 2, 3, 4, 6, 8, 9, 10, 11, 12, 14, 15, 16, 17, 19, 21, 22, 23, 24, 25, 26, 27, 28, 29][n]
  }

  lemma {:induction false} EntryLow(n: nat)
    requires n < 6
    ensures Entry(n) < 30 && FACILITY_ALIASES[Entry(n)] == Alias(FACILITY_NAMES[n], n)
  {}

  lemma {:induction false} EntryMid(n: nat)
    requires 6 <= n < 12
    ensures Entry(n) < 30 && FACILITY_ALIASES[Entry(n)] == Alias(FACILITY_NAMES[n], n)
  {}

  lemma {:induction false} EntryHigh(n: nat)
    requires 12 <= n < 18
    ensures Entry(n) < 30 && FACILITY_ALIASES[Entry(n)] == Alias(FACILITY_NAMES[n], n)
  {}

  lemma {:induction false} EntryTop(n: nat)
    requires 18 <= n < 24
    ensures Entry(n) < 30 && FACILITY_ALIASES[Entry(n)] == Alias(FACILITY_NAMES[n], n)
  {}

  lemma {:induction false} EntryIs(n: nat)
    requires n < 24
    ensures Entry(n) < 30 && FACILITY_ALIASES[Entry(n)] == Alias(FACILITY_NAMES[n], n)
  {
    hide Entry;
    if n < 6 {
      EntryLow(n);
    } else if n < 12 {
      EntryMid(n);
    } else if n < 18 {
      EntryHigh(n);
    } else {
      EntryTop(n);
    }
  }

  lemma {:induction false} LowFacilities(n: nat, j: nat)
    requires n < 12 && j < Entry(n)
    ensures Differ(FACILITY_ALIASES[j].name, FACILITY_NAMES[n])
  {}

  lemma {:induction false} MidFacilities(n: nat, j: nat)
    requires 12 <= n < 18 && j < Entry(n)
    ensures Differ(FACILITY_ALIASES[j].name, FACILITY_NAMES[n])
  {}

  lemma {:induction false} HighFacilities(n: nat, j: nat)
    requires 18 <= n < 24 && j < Entry(n)
    ensures Differ(FACILITY_ALIASES[j].name, FACILITY_NAMES[n])
  {}

  /** A name that is written is taken back, in any case, for the code it was written for. */
  lemma {:induction false} FacilityBack(n: nat, name: string)
    requires n < 24 && SameName(FACILITY_NAMES[n], name)
    ensures CodeOf(FACILITY_ALIASES, name) == Some(n)
  {
    var t, k := FACILITY_ALIASES, Entry(n);
    EntryIs(n);
    hide Entry;
    forall j | 0 <= j < k ensures Differ(t[j].name, name) {
      if n < 12 {
        LowFacilities(n, j);
      } else if n < 18 {
        MidFacilities(n, j);
      } else {
        HighFacilities(n, j);
      }
      DifferSame(t[j].name, FACILITY_NAMES[n], name);
    }
    CodeAt(t, name, k);
  }

  lemma {:induction false} DifferSame(a: string, b: string, c: string)
    requires Differ(a, b) && SameName(b, c)
    ensures Differ(a, c)
  {}

  lemma {:induction false} Severities(n: nat, j: nat)
    requires n < 8 && j < [0, 3, 4, 6, 8, 10, 11, 12][n]
    ensures Differ(SEVERITY_ALIASES[j].name, SEVERITY_NAMES[n])
  {}

  lemma {:induction false} SeverityBack(n: nat, name: string)
    requires n < 8 && SameName(SEVERITY_NAMES[n], name)
    ensures CodeOf(SEVERITY_ALIASES, name) == Some(n)
  {
    var t, k := SEVERITY_ALIASES, [0, 3, 4, 6, 8, 10, 11, 12][n];
    SeverityEntry(n);
    forall j | 0 <= j < k ensures Differ(t[j].name, name) {
      Severities(n, j);
      DifferSame(t[j].name, SEVERITY_NAMES[n], name);
    }
    SameTwice(t[k].name, SEVERITY_NAMES[n], name);
    CodeAt(t, name, k);
  }

  lemma {:induction false} SeverityLow(n: nat)
    requires n < 4
    ensures var k := [0, 3, 4, 6, 8, 10, 11, 12][n];
            SameName(SEVERITY_ALIASES[k].name, SEVERITY_NAMES[n]) && SEVERITY_ALIASES[k].code == n
  {}

  lemma {:induction false} SeverityHigh(n: nat)
    requires 4 <= n < 8
    ensures var k := [0, 3, 4, 6, 8, 10, 11, 12][n];
            SameName(SEVERITY_ALIASES[k].name, SEVERITY_NAMES[n]) && SEVERITY_ALIASES[k].code == n
  {}

  lemma {:induction false} SeverityEntry(n: nat)
    requires n < 8
    ensures var k := [0, 3, 4, 6, 8, 10, 11, 12][n];
            SameName(SEVERITY_ALIASES[k].name, SEVERITY_NAMES[n]) && SEVERITY_ALIASES[k].code == n
  {
    hide SameName;
    if n < 4 {
      SeverityLow(n);
    } else {
      SeverityHigh(n);
    }
  }

  lemma {:induction false} SameTwice(a: string, b: string, c: string)
    requires SameName(a, b) && SameName(b, c)
    ensures SameName(a, c)
  {}
}
