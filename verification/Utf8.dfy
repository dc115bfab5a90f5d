/**
 The repair every string gets before it goes into a JSONL record: what is not well-formed UTF-8
 (section 4 of RFC 3629) becomes U+FFFD.
 */
module Utf8 {
  import opened Bytes

  // ---- Well-formed UTF-8, by the grammar of the RFC -------------------------------------

  predicate Tail(b: byte) {
    0x80 <= b <= 0xBF
  }

  /** One encoded character, exactly. */
  predicate IsChar(c: Bytes) {
    match |c|
    case 1 => c[0] <= 0x7F
    case 2 => 0xC2 <= c[0] <= 0xDF && Tail(c[1])
    case 3 =>
      && Tail(c[2])
      && (|| (c[0] == 0xE0 && 0xA0 <= c[1] <= 0xBF)
          || (0xE1 <= c[0] <= 0xEC && Tail(c[1]))
          || (c[0] == 0xED && 0x80 <= c[1] <= 0x9F)
          || (0xEE <= c[0] <= 0xEF && Tail(c[1])))
    case 4 =>
      && Tail(c[2]) && Tail(c[3])
      && (|| (c[0] == 0xF0 && 0x90 <= c[1] <= 0xBF)
          || (0xF1 <= c[0] <= 0xF3 && Tail(c[1]))
          || (c[0] == 0xF4 && 0x80 <= c[1] <= 0x8F))
    case _ => false
  }

  /** Length of the character s begins with, or 0 when it begins with none. */
  function CharAt(s: Bytes): (n: nat)
    ensures n <= |s|
    ensures n > 0 <==> exists k | 0 < k <= |s| :: IsChar(s[..k])
    ensures n > 0 ==> IsChar(s[..n]) && forall k | 0 < k <= |s| && IsChar(s[..k]) :: k == n
  {
    if |s| >= 1 && IsChar(s[..1]) then 1
    else if |s| >= 2 && IsChar(s[..2]) then 2
    else if |s| >= 3 && IsChar(s[..3]) then 3
    else if |s| >= 4 && IsChar(s[..4]) then 4
    else 0
  }

  predicate WellFormed(s: Bytes)
    decreases |s|
  {
    s == [] || (CharAt(s) > 0 && WellFormed(s[CharAt(s)..]))
  }

  /** The characters that are there, and U+FFFD for every byte that begins none. */
  function Sanitized(s: Bytes): Bytes
    decreases |s|
  {
    if s == [] then []
    else if CharAt(s) > 0 then s[..CharAt(s)] + Sanitized(s[CharAt(s)..])
    else REPLACEMENT + Sanitized(s[1..])
  }

  const REPLACEMENT: Bytes := [0xEF, 0xBF, 0xBD]

  // ---- The repair --------------------------------------------------------------------------

  /** Expected length and bounds of the second byte, by the first; length 0 for no lead byte. */
  method Lead(c: byte) returns (len: nat, lo: byte, hi: byte)
    requires c > 0x7F
    ensures len == 0 ==> forall t: Bytes | t != [] && t[0] == c :: !IsChar(t)
    ensures len != 0 ==> 2 <= len <= 4
    ensures forall t: Bytes | t != [] && t[0] == c ::
              IsChar(t) <==> |t| == len && len >= 2 && lo <= t[1] <= hi && forall j | 2 <= j < len :: Tail(t[j])
  {
    lo, hi := 0x80, 0xBF;
    if c >= 0xC2 && c <= 0xDF {
      len := 2;
    } else if c == 0xE0 {
      len, lo := 3, 0xA0;
    } else if c >= 0xE1 && c <= 0xEC {
      len := 3;
    } else if c == 0xED {
      len, hi := 3, 0x9F;
    } else if c >= 0xEE && c <= 0xEF {
      len := 3;
    } else if c == 0xF0 {
      len, lo := 4, 0x90;
    } else if c >= 0xF1 && c <= 0xF3 {
      len := 4;
    } else if c == 0xF4 {
      len, hi := 4, 0x8F;
    } else {
      len := 0;
    }
  }

  /** Length of the character at i as the loop finds it: 0 when a check fails. */
  method CharLength(s: Bytes, i: nat) returns (n: nat)
    requires i < |s|
    ensures n == CharAt(s[i..])
  {
    var c := s[i];
    ghost var t := s[i..];
    if c <= 0x7F {
      assert IsChar(t[..1]);
      return 1;
    }
    var len, lo, hi := Lead(c);
    if len == 0 || i + len > |s| {
      return 0; // invalid lead byte, or truncated sequence
    }
    var b1 := s[i + 1];
    assert t[..len][1] == b1;
    if b1 < lo || b1 > hi {
      return 0; // first continuation byte out of range
    }
    for j := 2 to len
      invariant forall k | 2 <= k < j :: Tail(t[k])
    {
      var bj := s[i + j];
      assert t[j] == bj;
      if bj < 0x80 || bj > 0xBF {
        assert !Tail(t[..len][j]);
        return 0;
      }
    }
    assert IsChar(t[..len]);
    return len;
  }

  method SanitizeUtf8(s: Bytes) returns (out: Bytes)
    ensures out == Sanitized(s)
  {
    out := [];
    var i := 0;
    assert s[0..] == s;
    hide Sanitized, CharAt;
    while i < |s|
      invariant 0 <= i <= |s|
      invariant out + Sanitized(s[i..]) == Sanitized(s)
    {
      var n := CharLength(s, i);
      SanitizedAt(s, i, n);
      var piece := if n > 0 then s[i..i + n] else REPLACEMENT;
      var next := if n > 0 then i + n else i + 1;
      Assoc(out, piece, Sanitized(s[next..]));
      out := out + piece;
      i := next;
    }
    SanitizedNothing();
    assert out + [] == out;
  }

  lemma {:induction false} SanitizedAt(s: Bytes, i: nat, n: nat)
    requires i < |s| && n == CharAt(s[i..])
    ensures i + n <= |s|
    ensures Sanitized(s[i..]) == if n > 0 then s[i..i + n] + Sanitized(s[i + n..]) else REPLACEMENT + Sanitized(s[i + 1..])
  {
    var t := s[i..];
    SanitizedStep(t);
    hide Sanitized, CharAt;
    assert t[..n] == s[i..i + n] && t[n..] == s[i + n..] && t[1..] == s[i + 1..];
  }

  lemma {:induction false} SanitizedNothing()
    ensures Sanitized([]) == []
  {}

  lemma {:induction false} SanitizedStep(s: Bytes)
    requires s != []
    ensures Sanitized(s) == if CharAt(s) > 0 then s[..CharAt(s)] + Sanitized(s[CharAt(s)..])
                            else REPLACEMENT + Sanitized(s[1..])
  {}

  // ---- What it promises ------------------------------------------------------------------------

  /** A character in front of well-formed text is well-formed text. */
  lemma {:induction false} WellFormedCons(c: Bytes, t: Bytes)
    requires IsChar(c) && WellFormed(t)
    ensures WellFormed(c + t)
  {
    hide IsChar, CharAt;
    var s := c + t;
    assert s[..|c|] == c;
    CharNonEmpty(c);
    assert CharAt(s) == |c|;
    assert s[|c|..] == t;
  }

  lemma {:induction false} CharNonEmpty(c: Bytes)
    requires IsChar(c)
    ensures 0 < |c| <= 4
  {}

  /** The output is always well-formed. */
  lemma {:induction false} SanitizedWellFormed(s: Bytes)
    ensures WellFormed(Sanitized(s))
    decreases |s|
  {
    if s != [] {
      var n := CharAt(s);
      if n > 0 {
        SanitizedWellFormed(s[n..]);
        WellFormedCons(s[..n], Sanitized(s[n..]));
      } else {
        SanitizedWellFormed(s[1..]);
        assert IsChar(REPLACEMENT);
        WellFormedCons(REPLACEMENT, Sanitized(s[1..]));
      }
    }
  }

  lemma {:induction false} SanitizedIdentity(s: Bytes)
    requires WellFormed(s)
    ensures Sanitized(s) == s
    decreases |s|
  {
    if s == [] {
      SanitizedNothing();
    } else {
      var n := CharAt(s);
      assert n > 0 && WellFormed(s[n..]);
      hide CharAt, Sanitized, WellFormed;
      SanitizedIdentity(s[n..]);
      SanitizedStep(s);
      assert s[..n] + s[n..] == s;
    }
  }

  /** It changes exactly the text that is not well-formed; so it is idempotent. */
  lemma {:induction false} SanitizedIff(s: Bytes)
    ensures Sanitized(s) == s <==> WellFormed(s)
    ensures Sanitized(Sanitized(s)) == Sanitized(s)
  {
    SanitizedWellFormed(s);
    SanitizedIdentity(Sanitized(s));
    if WellFormed(s) {
      SanitizedIdentity(s);
    }
  }

  function Ascii(s: Bytes): Bytes {
    if s == [] then [] else (if s[0] <= 0x7F then [s[0]] else []) + Ascii(s[1..])
  }

  lemma {:induction false} AsciiConcat(a: Bytes, b: Bytes)
    ensures Ascii(a + b) == Ascii(a) + Ascii(b)
  {
    if a == [] {
      assert a + b == b;
    } else {
      assert (a + b)[1..] == a[1..] + b;
      var head := if a[0] <= 0x7F then [a[0]] else [];
      assert Ascii(a) == head + Ascii(a[1..]);
      assert Ascii(a + b) == head + Ascii(a[1..] + b);
      AsciiConcat(a[1..], b);
      Assoc(head, Ascii(a[1..]), Ascii(b));
    }
  }

  lemma {:induction false} AsciiNone(b: Bytes)
    requires forall i | 0 <= i < |b| :: b[i] > 0x7F
    ensures Ascii(b) == []
  {
    if b != [] {
      AsciiNone(b[1..]);
    }
  }

  /** Every ASCII byte is kept, in order, and nothing ASCII is added. */
  lemma {:induction false} SanitizedKeepsAscii(s: Bytes)
    ensures Ascii(Sanitized(s)) == Ascii(s)
    decreases |s|
  {
    if s != [] {
      var n := CharAt(s);
      SanitizedStep(s);
      if n > 0 {
        SanitizedKeepsAscii(s[n..]);
        hide Ascii, Sanitized;
        AsciiConcat(s[..n], Sanitized(s[n..]));
        AsciiConcat(s[..n], s[n..]);
        assert s[..n] + s[n..] == s;
      } else {
        SanitizedKeepsAscii(s[1..]);
        NotAscii(s);
        hide Ascii, Sanitized, CharAt;
        AsciiConcat(REPLACEMENT, Sanitized(s[1..]));
        AsciiNone(REPLACEMENT);
        AsciiConcat([s[0]], s[1..]);
        AsciiNone([s[0]]);
        assert [s[0]] + s[1..] == s;
      }
    }
  }

  lemma {:induction false} NotAscii(s: Bytes)
    requires s != [] && CharAt(s) == 0
    ensures s[0] > 0x7F
  {
    assert !IsChar(s[..1]);
  }

  /** It grows at most threefold. */
  lemma {:induction false} SanitizedLength(s: Bytes)
    ensures |Sanitized(s)| <= 3 * |s|
    decreases |s|
  {
    if s != [] {
      SanitizedStep(s);
      var n := CharAt(s);
      if n > 0 {
        SanitizedLength(s[n..]);
      } else {
        SanitizedLength(s[1..]);
      }
    }
  }

  lemma {:induction false} CharStays(a: Bytes, t: Bytes)
    requires CharAt(a) > 0
    ensures CharAt(a + t) == CharAt(a)
  {
    var n := CharAt(a);
    assert (a + t)[..n] == a[..n];
  }

  lemma {:induction false} WellFormedStep(a: Bytes)
    requires WellFormed(a) && a != []
    ensures CharAt(a) > 0 && WellFormed(a[CharAt(a)..])
  {}

  lemma {:induction false} SanitizedBehind(a: Bytes, t: Bytes)
    requires WellFormed(a)
    ensures Sanitized(a + t) == a + Sanitized(t)
    decreases |a|
  {
    hide *;
    if a == [] {
      assert a + t == t;
    } else {
      var n, s := CharAt(a), a + t;
      WellFormedStep(a);
      CharStays(a, t);
      SanitizedStep(s);
      assert s[..n] == a[..n] && s[n..] == a[n..] + t;
      SanitizedBehind(a[n..], t);
      assert a == a[..n] + a[n..];
      Assoc(a[..n], a[n..], Sanitized(t));
    }
  }

  /** Well-formed text is copied up to the first byte that begins no character, and that one becomes U+FFFD. */
  lemma {:induction false} BadByteReplaced(a: Bytes, t: Bytes)
    requires WellFormed(a) && t != [] && forall k | 0 < k <= |t| :: !IsChar(t[..k])
    ensures Sanitized(a + t) == a + ([0xEF, 0xBF, 0xBD] + Sanitized(t[1..]))
  {
    SanitizedBehind(a, t);
    SanitizedStep(t);
    hide Sanitized;
  }

  // ---- The grammar, against the definition of the encoding ------------------------------------

  /** A Unicode scalar value. */
  predicate Scalar(cp: int) {
    0 <= cp <= 0x10FFFF && !(0xD800 <= cp <= 0xDFFF)
  }

  /** Its encoding, by the table of section 3 of RFC 3629. */
  function Encode(cp: int): Bytes
    requires Scalar(cp)
  {
    if cp < 0x80 then [cp as byte]
    else if cp < 0x800 then [(0xC0 + cp / 64) as byte, (0x80 + cp % 64) as byte]
    else if cp < 0x10000 then
      [(0xE0 + cp / 4096) as byte, (0x80 + cp / 64 % 64) as byte, (0x80 + cp % 64) as byte]
    else
      [(0xF0 + cp / 262144) as byte, (0x80 + cp / 4096 % 64) as byte, (0x80 + cp / 64 % 64) as byte, (0x80 + cp % 64) as byte]
  }

  /** The scalar value an encoded character stands for. */
  function Decode(c: Bytes): int
    requires IsChar(c)
  {
    var low := i requires 0 <= i < |c| => c[i] as int - 0x80;
    match |c|
    case 1 => c[0] as int
    case 2 => (c[0] as int - 0xC0) * 64 + low(1)
    case 3 => (c[0] as int - 0xE0) * 4096 + low(1) * 64 + low(2)
    case 4 => (c[0] as int - 0xF0) * 262144 + low(1) * 4096 + low(2) * 64 + low(3)
  }

  lemma {:induction false} Split(hi: int, lo: int)
    requires 0 <= lo < 64
    ensures (hi * 64 + lo) / 64 == hi && (hi * 64 + lo) % 64 == lo
  {}

  lemma {:induction false} DecodedShort(c: Bytes)
    requires IsChar(c) && |c| <= 2
    ensures Scalar(Decode(c)) && Encode(Decode(c)) == c
  {
    if |c| == 2 {
      Split(c[0] as int - 0xC0, c[1] as int - 0x80);
    }
  }

  lemma {:induction false} DecodedThree(c: Bytes)
    requires IsChar(c) && |c| == 3
    ensures Scalar(Decode(c)) && Encode(Decode(c)) == c
  {
    var cp, lead, mid, low := Decode(c), c[0] as int - 0xE0, c[1] as int - 0x80, c[2] as int - 0x80;
    assert 0 <= lead < 16 && 0 <= mid < 64 && 0 <= low < 64 && (lead == 0 ==> mid >= 32) && (lead == 13 ==> mid < 32);
    Split(lead, mid);
    Split(lead * 64 + mid, low);
    assert cp == (lead * 64 + mid) * 64 + low && cp / 4096 == cp / 64 / 64;
    hide IsChar;
    assert c == [(0xE0 + lead) as byte, (0x80 + mid) as byte, (0x80 + low) as byte];
  }

  lemma {:induction false} DecodedFour(c: Bytes)
    requires IsChar(c) && |c| == 4
    ensures Scalar(Decode(c)) && Encode(Decode(c)) == c
  {
    var cp, lead, mid := Decode(c), c[0] as int - 0xF0, c[1] as int - 0x80;
    var low, last := c[2] as int - 0x80, c[3] as int - 0x80;
    assert 0 <= lead <= 4 && 0 <= mid < 64 && 0 <= low < 64 && 0 <= last < 64;
    assert (lead == 0 ==> mid >= 16) && (lead == 4 ==> mid < 16);
    Split(lead, mid);
    Split(lead * 64 + mid, low);
    Split((lead * 64 + mid) * 64 + low, last);
    assert cp == ((lead * 64 + mid) * 64 + low) * 64 + last;
    assert cp / 4096 == cp / 64 / 64 && cp / 262144 == cp / 64 / 64 / 64;
    hide IsChar;
    assert c == [(0xF0 + lead) as byte, (0x80 + mid) as byte, (0x80 + low) as byte, (0x80 + last) as byte];
  }

  lemma {:induction false} DecodedIsScalar(c: Bytes)
    requires IsChar(c)
    ensures Scalar(Decode(c)) && Encode(Decode(c)) == c
  {
    CharNonEmpty(c);
    hide IsChar, Encode, Decode;
    if |c| <= 2 {
      DecodedShort(c);
    } else if |c| == 3 {
      DecodedThree(c);
    } else {
      DecodedFour(c);
    }
  }

  /** A character, by the grammar, is the encoding of exactly one scalar value, and every encoding is one. */
  lemma {:induction false} CharIsEncoding(c: Bytes)
    ensures IsChar(c) <==> exists cp | Scalar(cp) :: Encode(cp) == c
  {
    if IsChar(c) {
      DecodedIsScalar(c);
      assert Encode(Decode(c)) == c;
    }
    forall cp | Scalar(cp) ensures IsChar(Encode(cp)) {
      EncodedIsChar(cp);
    }
  }

  lemma {:induction false} EncodedThree(cp: int)
    requires Scalar(cp) && 0x800 <= cp < 0x10000
    ensures IsChar(Encode(cp))
  {
    var lead, mid := cp / 4096, cp / 64 % 64;
    assert 0 <= lead < 16 && lead * 64 + mid == cp / 64;
    assert lead == 0 ==> mid >= 32;
    assert lead == 13 ==> mid < 32;
  }

  lemma {:induction false} EncodedFour(cp: int)
    requires Scalar(cp) && cp >= 0x10000
    ensures IsChar(Encode(cp))
  {
    var lead, mid := cp / 262144, cp / 4096 % 64;
    assert 0 <= lead <= 4 && lead * 64 + mid == cp / 4096;
    assert lead == 0 ==> mid >= 16;
    assert lead == 4 ==> mid < 16;
  }

  lemma {:induction false} EncodedIsChar(cp: int)
    requires Scalar(cp)
    ensures IsChar(Encode(cp))
  {
    if 0x800 <= cp < 0x10000 {
      EncodedThree(cp);
    } else if cp >= 0x10000 {
      EncodedFour(cp);
    }
  }
}
