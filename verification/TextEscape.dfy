/**
 The text sink's escaping: the raw text of one message is one line, no terminal acts on it, and it can
 be read back. Decoded is the table of the README, "Text file".
 */
module TextEscape {
  import opened Bytes
  import opened Lines
  import opened Options

  const TAB: byte := 9
  const BACKSLASH: byte := 92
  const DEL: byte := 127
  const C1LEAD: byte := 0xC2

  function HexDigit(n: int): byte
    requires 0 <= n < 16
  {
    if n < 10 then (48 + n) as byte else (55 + n) as byte
  }

  /** Two uppercase hex digits. */
  function Hex2(c: byte): Bytes {
    [HexDigit(c as int / 16), HexDigit(c as int % 16)]
  }

  /** A C1 control as a decoded codepoint: C2 followed by 80-9F. */
  predicate C1At(s: Bytes, i: nat) {
    i + 1 < |s| && s[i] == C1LEAD && 0x80 <= s[i + 1] <= 0x9F
  }

  predicate IsControl(c: byte) {
    (c < 0x20 && c != TAB) || c == DEL
  }

  function EscapedByte(c: byte): Bytes {
    if c == BACKSLASH then [BACKSLASH, BACKSLASH]
    else if c == LF then [BACKSLASH, 110]        // n
    else if c == CR then [BACKSLASH, 114]        // r
    else if IsControl(c) then [BACKSLASH, 120] + Hex2(c) // x
    else [c]
  }

  function EscapedC1(c: byte): Bytes {
    [BACKSLASH, 117, 48, 48] + Hex2(c) // u00
  }

  /** The line written for s. */
  function Escaped(s: Bytes): Bytes
    decreases |s|
  {
    if s == [] then []
    else if C1At(s, 0) then EscapedC1(s[1]) + Escaped(s[2..])
    else EscapedByte(s[0]) + Escaped(s[1..])
  }

  /** Walks s once, appending what each byte or C1 pair is written as. */
  method EscapeControlChars(s: Bytes) returns (out: Bytes)
    ensures out == Escaped(s)
  {
    out := [];
    var i := 0;
    assert s[0..] == s;
    hide Escaped;
    while i < |s|
      invariant 0 <= i <= |s|
      invariant out + Escaped(s[i..]) == Escaped(s)
    {
      EscapedStep(s[i..]);
      var c := s[i];
      if c == C1LEAD && i + 1 < |s| {
        var next := s[i + 1];
        if next >= 0x80 && next <= 0x9F {
          assert s[i..][2..] == s[i + 2..];
          Assoc(out, EscapedC1(next), Escaped(s[i + 2..]));
          out := out + ([BACKSLASH, 117, 48, 48] + Hex2(next));
          i := i + 2;
          continue;
        }
      }
      var piece := [c];
      if c == BACKSLASH {
        piece := [BACKSLASH, BACKSLASH];
      } else if c == LF {
        piece := [BACKSLASH, 110];
      } else if c == CR {
        piece := [BACKSLASH, 114];
      } else if (c < 0x20 && c != TAB) || c == DEL {
        piece := [BACKSLASH, 120] + Hex2(c);
      }
      assert s[i..][1..] == s[i + 1..];
      Assoc(out, piece, Escaped(s[i + 1..]));
      out := out + piece;
      i := i + 1;
    }
    EscapedNothing();
    assert out + [] == out;
  }

  lemma {:induction false} EscapedNothing()
    ensures Escaped([]) == []
  {}

  // ---- Reading it back ----------------------------------------------------------------

  function HexValue(d: byte): (r: Option<int>)
    ensures r.Some? ==> 0 <= r.value < 16
  {
    if 48 <= d <= 57 then Some(d as int - 48)
    else if 65 <= d <= 70 then Some(d as int - 55)
    else None
  }

  function Hex2Value(a: byte, b: byte): Option<byte> {
    if HexValue(a).Some? && HexValue(b).Some? then Some((HexValue(a).value * 16 + HexValue(b).value) as byte) else None
  }

  function Prepend(b: Bytes, r: Option<Bytes>): Option<Bytes> {
    if r.Some? then Some(b + r.value) else None
  }

  /** Reads one written line back; None for text no escape produces. */
  function Decoded(e: Bytes): Option<Bytes>
    decreases |e|
  {
    if e == [] then Some([])
    else if e[0] != BACKSLASH then Prepend([e[0]], Decoded(e[1..]))
    else if |e| >= 2 && e[1] == BACKSLASH then Prepend([BACKSLASH], Decoded(e[2..]))
    else if |e| >= 2 && e[1] == 110 then Prepend([LF], Decoded(e[2..]))
    else if |e| >= 2 && e[1] == 114 then Prepend([CR], Decoded(e[2..]))
    else if |e| >= 4 && e[1] == 120 && Hex2Value(e[2], e[3]).Some? then
      Prepend([Hex2Value(e[2], e[3]).value], Decoded(e[4..]))
    else if |e| >= 6 && e[1] == 117 && e[2] == 48 && e[3] == 48 && Hex2Value(e[4], e[5]).Some? then
      Prepend([C1LEAD, Hex2Value(e[4], e[5]).value], Decoded(e[6..]))
    else None
  }

  lemma {:induction false} Hex2RoundTrip(c: byte)
    ensures Hex2Value(Hex2(c)[0], Hex2(c)[1]) == Some(c)
    ensures forall d <- Hex2(c) :: 48 <= d <= 70
  {}

  lemma {:induction false} DecodedByte(c: byte, rest: Bytes)
    ensures Decoded(EscapedByte(c) + rest) == Prepend([c], Decoded(rest))
  {
    Hex2RoundTrip(c);
    var e := EscapedByte(c) + rest;
    assert e[|EscapedByte(c)|..] == rest;
  }

  lemma {:induction false} DecodedC1(c: byte, rest: Bytes)
    ensures Decoded(EscapedC1(c) + rest) == Prepend([C1LEAD, c], Decoded(rest))
  {
    Hex2RoundTrip(c);
    var e := EscapedC1(c) + rest;
    assert e[6..] == rest;
  }

  /** Escaping is reversible, for arbitrary bytes. */
  lemma {:induction false} EscapeRoundTrip(s: Bytes)
    ensures Decoded(Escaped(s)) == Some(s)
    decreases |s|
  {
    hide Decoded, EscapedByte, EscapedC1;
    if s == [] {
      DecodedNothing();
    } else if C1At(s, 0) {
      EscapeRoundTrip(s[2..]);
      DecodedC1(s[1], Escaped(s[2..]));
      assert [C1LEAD, s[1]] + s[2..] == s;
    } else {
      EscapeRoundTrip(s[1..]);
      DecodedByte(s[0], Escaped(s[1..]));
      assert [s[0]] + s[1..] == s;
    }
  }

  lemma {:induction false} DecodedNothing()
    ensures Decoded([]) == Some([])
  {}

  // ---- What it never contains ----------------------------------------------------------------

  /** No control byte but TAB, no DEL, and no C1 pair. */
  ghost predicate Harmless(e: Bytes) {
    forall i | 0 <= i < |e| :: !IsControl(e[i]) && !C1At(e, i)
  }

  lemma {:induction false} HarmlessConcat(a: Bytes, b: Bytes)
    requires Harmless(a) && Harmless(b)
    requires a != [] && b != [] && a[|a| - 1] == C1LEAD ==> !(0x80 <= b[0] <= 0x9F)
    ensures Harmless(a + b)
  {
    forall i | 0 <= i < |a + b| ensures !IsControl((a + b)[i]) && !C1At(a + b, i) {
      if i < |a| {
        assert !C1At(a, i);
      } else {
        assert !C1At(b, i - |a|);
      }
    }
  }

  lemma {:induction false} EscapedByteHarmless(c: byte)
    ensures Harmless(EscapedByte(c)) && EscapedByte(c) != []
    ensures EscapedByte(c)[0] == c || EscapedByte(c)[0] == BACKSLASH
    ensures EscapedByte(c)[|EscapedByte(c)| - 1] == C1LEAD ==> c == C1LEAD
  {
    Hex2RoundTrip(c);
  }

  lemma {:induction false} EscapedC1Harmless(c: byte)
    ensures Harmless(EscapedC1(c)) && EscapedC1(c)[5] != C1LEAD
  {
    Hex2RoundTrip(c);
    var e := EscapedC1(c);
    assert e[4] == Hex2(c)[0] && e[5] == Hex2(c)[1];
  }

  /** A written line holds nothing a terminal acts on, and so no LF. */
  lemma {:induction false} EscapedHarmless(s: Bytes)
    ensures Harmless(Escaped(s)) && NoLf(Escaped(s))
    ensures s != [] ==> Escaped(s) != [] && (Escaped(s)[0] == s[0] || Escaped(s)[0] == BACKSLASH)
    decreases |s|
  {
    if s != [] {
      if C1At(s, 0) {
        EscapedHarmless(s[2..]);
        EscapedC1Harmless(s[1]);
        hide Harmless, Escaped, EscapedByte;
        HarmlessConcat(EscapedC1(s[1]), Escaped(s[2..]));
        EscapedStep(s);
      } else {
        EscapedHarmless(s[1..]);
        EscapedByteHarmless(s[0]);
        hide Harmless, Escaped, EscapedByte, EscapedC1;
        HarmlessConcat(EscapedByte(s[0]), Escaped(s[1..]));
        EscapedStep(s);
      }
    }
    HarmlessNoLf(Escaped(s));
  }

  lemma {:induction false} EscapedStep(s: Bytes)
    requires s != []
    ensures Escaped(s) == if C1At(s, 0) then EscapedC1(s[1]) + Escaped(s[2..]) else EscapedByte(s[0]) + Escaped(s[1..])
  {}

  lemma {:induction false} HarmlessNoLf(e: Bytes)
    requires Harmless(e)
    ensures NoLf(e)
  {}

  // ---- How each byte is written --------------------------------------------------------------

  /** Digit n of the hexadecimal notation. */
  function HexChar(n: nat): byte
    requires n < 16
  {
    [48, 49, 50, 51, 52, 53, 54, 55, 56, 57, 65, 66, 67, 68, 69, 70][n]
  }

  /** What the byte or the C1 pair in front is written as, and how long it is. */
  function Front(s: Bytes): (r: (Bytes, nat))
    requires s != []
    ensures 1 <= r.1 <= |s|
  {
    if C1At(s, 0) then (EscapedC1(s[1]), 2) else (EscapedByte(s[0]), 1)
  }

  lemma {:induction false} FrontOf(s: Bytes)
    requires s != []
    ensures Escaped(s) == Front(s).0 + Escaped(s[Front(s).1..])
  {
    EscapedStep(s);
    hide Escaped, EscapedByte, EscapedC1;
  }

  lemma {:induction false} SameFront(a: Bytes, b: Bytes)
    requires a != [] && !(a[|a| - 1] == C1LEAD && b != [] && 0x80 <= b[0] <= 0x9F)
    ensures Front(a + b) == Front(a)
    ensures var rest := a[Front(a).1..]; rest != [] ==> rest[|rest| - 1] == a[|a| - 1]
  {
    hide EscapedByte, EscapedC1;
  }

  /** Texts are written one behind the other, unless a C1 pair is split between them. */
  lemma {:induction false} EscapedConcat(a: Bytes, b: Bytes)
    requires a == [] || b == [] || !(a[|a| - 1] == 0xC2 && 0x80 <= b[0] <= 0x9F)
    ensures Escaped(a + b) == Escaped(a) + Escaped(b)
    decreases |a|
  {
    assert C1LEAD == 0xC2;
    hide *;
    if a == [] {
      EscapedNothing();
      assert a + b == b;
    } else {
      var n := Front(a).1;
      FrontOf(a);
      FrontOf(a + b);
      SameFront(a, b);
      assert (a + b)[n..] == a[n..] + b;
      EscapedConcat(a[n..], b);
      Assoc(Front(a).0, Escaped(a[n..]), Escaped(b));
    }
  }

  /**
   The table. A backslash is doubled, LF, CR and the other controls but TAB become \n, \r and \xHH, a C1
   pair becomes \u00HH, and any other byte, TAB included, stands for itself.
   */
  lemma {:induction false} EscapedTable(c: byte)
    ensures Escaped([c]) ==
              if c == 92 then [92, 92]
              else if c == 10 then [92, 110]
              else if c == 13 then [92, 114]
              else if (c < 32 && c != 9) || c == 127 then [92, 120, HexChar(c as int / 16), HexChar(c as int % 16)]
              else [c]
    ensures 0x80 <= c <= 0x9F ==>
              Escaped([0xC2, c]) == [92, 117, 48, 48, HexChar(c as int / 16), HexChar(c as int % 16)]
  {
    Hex2Same(c);
    EscapedNothing();
    EscapedStep([c]);
    assert [c][1..] == [] && EscapedByte(c) + [] == EscapedByte(c) && !C1At([c], 0);
    if 0x80 <= c <= 0x9F {
      EscapedPair(c);
    }
    hide Escaped, HexChar, Hex2;
  }

  lemma {:induction false} EscapedPair(c: byte)
    requires 0x80 <= c <= 0x9F
    ensures Escaped([0xC2, c]) == EscapedC1(c)
  {
    EscapedNothing();
    EscapedStep([C1LEAD, c]);
    assert [C1LEAD, c][2..] == [] && EscapedC1(c) + [] == EscapedC1(c);
    hide Escaped, EscapedC1;
  }

  lemma {:induction false} Hex2Same(c: byte)
    ensures Hex2(c) == [HexChar(c as int / 16), HexChar(c as int % 16)]
  {}

  /** Nothing in it has to be escaped. */
  predicate Plain(s: Bytes) {
    && (forall i | 0 <= i < |s| :: s[i] != 92 && s[i] != 127 && (s[i] >= 32 || s[i] == 9))
    && forall i | 0 < i < |s| :: !(s[i - 1] == 0xC2 && 0x80 <= s[i] <= 0x9F)
  }

  lemma {:induction false} PlainTail(s: Bytes)
    requires s != []
    ensures Plain(s) <==>
              && s[0] != 92 && s[0] != 127 && (s[0] >= 32 || s[0] == 9) && !C1At(s, 0) && Plain(s[1..])
  {
    if Plain(s) {
      assert |s| > 1 ==> !(s[1 - 1] == 0xC2 && 0x80 <= s[1] <= 0x9F);
      assert forall i | 0 <= i < |s[1..]| :: s[1..][i] == s[i + 1];
    }
    if Plain(s[1..]) {
      assert forall i | 0 < i < |s| :: s[i] == s[1..][i - 1];
    }
  }

  lemma {:induction false} ByteLength(c: byte)
    ensures |EscapedByte(c)| >= 1 && (|EscapedByte(c)| == 1 <==> c != 92 && c != 127 && (c >= 32 || c == 9))
    ensures |EscapedByte(c)| == 1 ==> EscapedByte(c) == [c]
  {}

  lemma {:induction false} EscapedLength(s: Bytes)
    ensures |Escaped(s)| >= |s| && (|Escaped(s)| == |s| <==> Plain(s))
    ensures Plain(s) ==> Escaped(s) == s
    decreases |s|
  {
    if s == [] {
      EscapedNothing();
    } else {
      EscapedStep(s);
      PlainTail(s);
      ByteLength(s[0]);
      hide Escaped, Plain, EscapedByte, Hex2;
      if C1At(s, 0) {
        EscapedLength(s[2..]);
      } else {
        EscapedLength(s[1..]);
        assert s == [s[0]] + s[1..];
      }
    }
  }

  /** Text is written as it is if and only if nothing in it has to be escaped. */
  lemma {:induction false} EscapedIff(s: Bytes)
    ensures Escaped(s) == s <==> Plain(s)
  {
    EscapedLength(s);
  }

  // ---- The text file ---------------------------------------------------------------------------

  /** The file the text sink writes for a sequence of raw texts. */
  function TextFile(raws: seq<Bytes>): Bytes {
    if raws == [] then [] else TextFile(raws[..|raws| - 1]) + (Escaped(raws[|raws| - 1]) + [LF])
  }

  /** Splitting the file on LF and decoding each line gives back the raw texts, one line each. */
  lemma {:induction false} TextFileRoundTrip(raws: seq<Bytes>, base: nat)
    ensures var ls := LinesOf(TextFile(raws), base);
            && |ls| == |raws|
            && (forall i | 0 <= i < |raws| :: Decoded(ls[i].text) == Some(raws[i]))
            && (raws != [] ==> var f := TextFile(raws); f != [] && f[|f| - 1] == LF)
    decreases |raws|
  {
    hide Decoded, Escaped, LinesIn, NextLf, NoLf;
    if raws == [] {
      LinesNone([], 0, base);
    } else {
      var n := |raws| - 1;
      var head, e := TextFile(raws[..n]), Escaped(raws[n]);
      TextFileRoundTrip(raws[..n], base);
      EscapedHarmless(raws[n]);
      EscapeRoundTrip(raws[n]);
      AppendLine(head, e, base);
      var ls := LinesOf(head + (e + [LF]), base);
      forall i | 0 <= i < |raws| ensures Decoded(ls[i].text) == Some(raws[i]) {
        if i < n {
          assert raws[..n][i] == raws[i];
        }
      }
    }
  }

  /** Appending one terminated line to a file of whole lines adds that line. */
  lemma {:induction false} AppendLine(head: Bytes, e: Bytes, base: nat)
    requires (head == [] || head[|head| - 1] == LF) && NoLf(e)
    ensures LinesOf(head + (e + [LF]), base) == LinesOf(head, base) + [Line(e, base + |head|)]
  {
    var b := head + (e + [LF]);
    hide LinesIn, NextLf;
    LinesAt(b, 0, |head|, |b|, base);
    LinesSame(head, 0, |head|, base, b, 0, base);
    assert forall k | |head| <= k < |head| + |e| :: b[k] == e[k - |head|];
    LinesHead(b, |head|, |head| + |e|, |b|, base);
    LinesNone(b, |b|, base);
    assert b[|head|..|head| + |e|] == e;
  }
}
