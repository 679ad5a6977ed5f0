// JSON text of token bytes (ds4_cli.c:565-615), against the byte grammar of
// section 4 of RFC 3629 and the strings of section 7 of RFC 8259.

module JsonText {
  import opened Bytes

  const BACKSLASH: byte := 0x5C

  // ---------------------------------------------------------------- RFC 3629

  predicate Tail(c: byte) { 0x80 <= c <= 0xBF }

  /** UTF8-char of section 4 of RFC 3629. */
  predicate IsChar(c: bytes) {
    match |c|
    case 1 => c[0] <= 0x7F
    case 2 => 0xC2 <= c[0] <= 0xDF && Tail(c[1])
    case 3 =>
      && Tail(c[2])
      && ((c[0] == 0xE0 && 0xA0 <= c[1] <= 0xBF) || (0xE1 <= c[0] <= 0xEC && Tail(c[1]))
          || (c[0] == 0xED && 0x80 <= c[1] <= 0x9F) || (0xEE <= c[0] <= 0xEF && Tail(c[1])))
    case 4 =>
      && Tail(c[2]) && Tail(c[3])
      && ((c[0] == 0xF0 && 0x90 <= c[1] <= 0xBF) || (0xF1 <= c[0] <= 0xF3 && Tail(c[1]))
          || (c[0] == 0xF4 && 0x80 <= c[1] <= 0x8F))
    case _ => false
  }

  predicate AllChars(cs: seq<bytes>) { forall i :: 0 <= i < |cs| ==> IsChar(cs[i]) }

  /** UTF8-octets: a concatenation of characters. */
  ghost predicate IsUtf8(s: bytes) { exists cs :: AllChars(cs) && Concat(cs) == s }

  /** A Unicode scalar value: a code point that is no surrogate. */
  predicate Scalar(p: nat) { p < 0x110000 && !(0xD800 <= p < 0xE000) }

  function CodePoint(c: bytes): nat
    requires IsChar(c)
  {
    match |c|
    case 1 => c[0] as nat
    case 2 => Shift6(c[0] as nat - 0xC0, c[1])
    case 3 => Shift6(Shift6(c[0] as nat - 0xE0, c[1]), c[2])
    case 4 => Shift6(Shift6(Shift6(c[0] as nat - 0xF0, c[1]), c[2]), c[3])
  }

  /** Six more bits from a continuation byte. */
  function Shift6(high: nat, c: byte): (p: nat)
    requires Tail(c)
    ensures p / 0x40 == high && p % 0x40 == c as nat - 0x80
  {
    high * 0x40 + (c as nat - 0x80)
  }

  function TailOf(p: nat): (c: byte)
    ensures Tail(c) && c as nat == 0x80 + p % 0x40
  {
    (0x80 + p % 0x40) as byte
  }

  function EncodeUtf8(p: nat): bytes
    requires Scalar(p)
  {
    var p1 := p / 0x40;
    var p2 := p1 / 0x40;
    var p3 := p2 / 0x40;
    if p < 0x80 then [p as byte]
    else if p < 0x800 then [(0xC0 + p1) as byte, TailOf(p)]
    else if p < 0x10000 then [(0xE0 + p2) as byte, TailOf(p1), TailOf(p)]
    else [(0xF0 + p3) as byte, TailOf(p2), TailOf(p1), TailOf(p)]
  }

  lemma TailBack(high: nat, c: byte)
    requires Tail(c)
    ensures TailOf(Shift6(high, c)) == c
  {
  }

  lemma Encodes2(c: bytes)
    requires IsChar(c) && |c| == 2
    ensures Scalar(CodePoint(c)) && EncodeUtf8(CodePoint(c)) == c
  {
    var a := c[0] as nat - 0xC0;
    var p := Shift6(a, c[1]);
    TailBack(a, c[1]);
    assert 0x80 <= p < 0x800;
  }

  lemma Encodes3(c: bytes)
    requires IsChar(c) && |c| == 3
    ensures Scalar(CodePoint(c)) && EncodeUtf8(CodePoint(c)) == c
  {
    hide TailOf, Shift6;
    var a := c[0] as nat - 0xE0;
    var p1 := Shift6(a, c[1]);
    var p := Shift6(p1, c[2]);
    TailBack(a, c[1]);
    TailBack(p1, c[2]);
    assert p1 / 0x40 == a && p / 0x40 == p1;
    assert 0x20 <= p1 < 0x400 && !(0x360 <= p1 < 0x380);
    assert 0x800 <= p < 0x10000 && Scalar(p);
  }

  lemma Encodes4(c: bytes)
    requires IsChar(c) && |c| == 4
    ensures Scalar(CodePoint(c)) && EncodeUtf8(CodePoint(c)) == c
  {
    hide TailOf, Shift6;
    var a := c[0] as nat - 0xF0;
    var p2 := Shift6(a, c[1]);
    var p1 := Shift6(p2, c[2]);
    var p := Shift6(p1, c[3]);
    TailBack(a, c[1]);
    TailBack(p2, c[2]);
    TailBack(p1, c[3]);
    assert p2 / 0x40 == a && p1 / 0x40 == p2 && p / 0x40 == p1;
    assert 0x10 <= p2 < 0x110;
    assert 0x400 <= p1 < 0x4400;
    assert 0x10000 <= p < 0x110000;
  }

  /** The grammar is exactly the encodings of the scalar values, one each. */
  lemma CharIsEncoding(c: bytes)
    requires IsChar(c)
    ensures Scalar(CodePoint(c)) && EncodeUtf8(CodePoint(c)) == c
  {
    hide CodePoint, EncodeUtf8;
    match |c|
    case 1 => AsciiEncodes(c);
    case 2 => Encodes2(c);
    case 3 => Encodes3(c);
    case 4 => Encodes4(c);
  }

  lemma AsciiEncodes(c: bytes)
    requires IsChar(c) && |c| == 1
    ensures Scalar(CodePoint(c)) && EncodeUtf8(CodePoint(c)) == c
  {
  }

  lemma EncodingIsChar(p: nat)
    requires Scalar(p)
    ensures IsChar(EncodeUtf8(p)) && CodePoint(EncodeUtf8(p)) == p
  {
    var p1 := p / 0x40;
    var p2 := p1 / 0x40;
    var p3 := p2 / 0x40;
    assert p == p1 * 0x40 + p % 0x40 && p1 == p2 * 0x40 + p1 % 0x40 && p2 == p3 * 0x40 + p2 % 0x40;
  }

  /** Bytes that must follow a leading byte. */
  function Need(c: byte): Option<nat> {
    if c < 0x80 then Some(0)
    else if 0xC2 <= c <= 0xDF then Some(1)
    else if 0xE0 <= c <= 0xEF then Some(2)
    else if 0xF0 <= c <= 0xF4 then Some(3)
    else None
  }

  /** Length of the character at the start of `t`. */
  function CharLen(t: bytes): (r: Option<nat>)
    ensures r.Some? ==> 0 < r.value <= |t| && IsChar(t[..r.value])
  {
    if t == [] then None
    else
      match Need(t[0])
      case None => None
      case Some(k) => if k < |t| && IsChar(t[..k + 1]) then Some(k + 1) else None
  }

  lemma CharLenIs(c: bytes, rest: bytes)
    requires IsChar(c)
    ensures CharLen(c + rest) == Some(|c|)
  {
    var t := c + rest;
    assert t[0] == c[0];
    assert Need(c[0]) == Some(|c| - 1);
    assert t[..|c|] == c;
  }

  function Chars(s: bytes): Option<seq<bytes>>
    decreases |s|
  {
    if s == [] then Some([])
    else
      match CharLen(s)
      case None => None
      case Some(n) =>
        match Chars(s[n..])
        case None => None
        case Some(cs) => Some([s[..n]] + cs)
  }

  lemma {:induction false} CharsSound(s: bytes)
    requires Chars(s).Some?
    ensures AllChars(Chars(s).value) && Concat(Chars(s).value) == s
    decreases |s|
  {
    hide IsChar;
    if s != [] {
      var n := CharLen(s).value;
      CharsSound(s[n..]);
      var cs := Chars(s[n..]).value;
      assert Chars(s).value[1..] == cs;
    }
  }

  lemma {:induction false} CharsComplete(cs: seq<bytes>)
    requires AllChars(cs)
    ensures Chars(Concat(cs)) == Some(cs)
  {
    hide IsChar, CharLen;
    if cs != [] {
      var c, rest := cs[0], Concat(cs[1..]);
      CharsComplete(cs[1..]);
      CharLenIs(c, rest);
      CharNotEmpty(c);
      Cut(c, rest);
      assert cs == [c] + cs[1..];
    }
  }

  lemma Cut(a: bytes, b: bytes)
    ensures (a + b)[..|a|] == a && (a + b)[|a|..] == b
  {
  }

  lemma CharNotEmpty(c: bytes)
    requires IsChar(c)
    ensures |c| > 0
  {
  }

  lemma Utf8Exact(s: bytes)
    ensures Chars(s).Some? <==> IsUtf8(s)
  {
    if Chars(s).Some? { CharsSound(s); }
    if IsUtf8(s) {
      var cs :| AllChars(cs) && Concat(cs) == s;
      CharsComplete(cs);
    }
  }

  /** The body of the loop of `json_utf8_valid`: the length of the character at `i`. */
  method CharAt(s: bytes, i: nat) returns (n: Option<nat>)
    requires i < |s|
    ensures n == CharLen(s[i..])
  {
    ghost var t := s[i..];
    var c := s[i];
    if c < 0x80 {
      assert t[..1] == [c];
      return Some(1);
    }
    var need := 0;
    if 0xC2 <= c <= 0xDF { need := 1; }
    else if 0xE0 <= c <= 0xEF { need := 2; }
    else if 0xF0 <= c <= 0xF4 { need := 3; }
    else { return None; }
    if i + 1 + need > |s| { return None; }
    ghost var u := t[..need + 1];
    assert forall k :: 0 <= k <= need ==> u[k] == s[i + k];
    var c1 := s[i + 1];
    if c == 0xE0 && c1 < 0xA0 { return None; }
    if c == 0xED && c1 >= 0xA0 { return None; }
    if c == 0xF0 && c1 < 0x90 { return None; }
    if c == 0xF4 && c1 >= 0x90 { return None; }
    for j := 0 to need
      invariant forall k :: 1 <= k <= j ==> Tail(u[k])
    {
      var cc := s[i + 1 + j];
      assert u[j + 1] == cc;
      if !(0x80 <= cc <= 0xBF) { return None; }
    }
    return Some(need + 1);
  }

  /** `json_utf8_valid` accepts exactly UTF-8. */
  method Utf8Valid(s: bytes) returns (valid: bool)
    ensures valid <==> IsUtf8(s)
  {
    hide CharLen, IsUtf8;
    Utf8Exact(s);
    var i := 0;
    assert s[0..] == s;
    while i < |s|
      invariant 0 <= i <= |s| && (Chars(s[i..]).Some? <==> Chars(s).Some?)
    {
      var n := CharAt(s, i);
      if n.None? { return false; }
      assert s[i..][n.value..] == s[i + n.value..];
      i := i + n.value;
    }
    return true;
  }

  // ---------------------------------------------------------------- writing

  const HEX: bytes := Ascii("0123456789abcdef")

  /** `\\u%04x` of a byte. */
  function UnicodeEscape(c: byte): bytes {
    [BACKSLASH, 0x75, HEX[0], HEX[0], HEX[c as nat / 16], HEX[c as nat % 16]]
  }

  function WriteByte(c: byte, valid: bool): bytes {
    if c == QUOTE || c == BACKSLASH then [BACKSLASH, c]
    else if c == LF then [BACKSLASH, 0x6E]
    else if c == CR then [BACKSLASH, 0x72]
    else if c == TAB then [BACKSLASH, 0x74]
    else if c < 0x20 || (!valid && c >= 0x80) then UnicodeEscape(c)
    else [c]
  }

  function WriteBytes(s: bytes, valid: bool): bytes {
    if s == [] then [] else WriteByte(s[0], valid) + WriteBytes(s[1..], valid)
  }

  /** `json_write_string`. */
  method WriteString(s: bytes) returns (out: bytes)
    ensures IsUtf8(s) ==> out == [QUOTE] + WriteBytes(s, true) + [QUOTE]
    ensures !IsUtf8(s) ==> out == [QUOTE] + WriteBytes(s, false) + [QUOTE]
  {
    hide IsUtf8, WriteByte;
    var valid := Utf8Valid(s);
    out := [QUOTE];
    for i := 0 to |s|
      invariant out + WriteBytes(s[i..], valid) == [QUOTE] + WriteBytes(s, valid)
    {
      assert s[i..][0] == s[i] && s[i..][1..] == s[i + 1..];
      Associative(out, WriteByte(s[i], valid), WriteBytes(s[i + 1..], valid));
      var piece := WriteOne(s[i], valid);
      out := out + piece;
    }
    assert out + [] == out;
    out := out + [QUOTE];
  }

  method WriteOne(c: byte, valid: bool) returns (piece: bytes)
    ensures piece == WriteByte(c, valid)
  {
    if c == QUOTE || c == BACKSLASH { return [BACKSLASH, c]; }
    else if c == LF { return [BACKSLASH, 0x6E]; }
    else if c == CR { return [BACKSLASH, 0x72]; }
    else if c == TAB { return [BACKSLASH, 0x74]; }
    else if c < 0x20 { return UnicodeEscape(c); }
    else if !valid && c >= 0x80 { return UnicodeEscape(c); }
    else { return [c]; }
  }

  // ---------------------------------------------------------------- RFC 8259

  function HexValue(c: byte): Option<nat> {
    if 0x30 <= c <= 0x39 then Some(c as nat - 0x30)
    else if 0x61 <= c <= 0x66 then Some(c as nat - 0x57)
    else if 0x41 <= c <= 0x46 then Some(c as nat - 0x37)
    else None
  }

  function Hex4(t: bytes): Option<nat>
    requires |t| >= 4
  {
    if HexValue(t[0]).Some? && HexValue(t[1]).Some? && HexValue(t[2]).Some? && HexValue(t[3]).Some? then
      Some(((HexValue(t[0]).value * 16 + HexValue(t[1]).value) * 16 + HexValue(t[2]).value) * 16 + HexValue(t[3]).value)
    else None
  }

  /** The two-character escapes of section 7 of RFC 8259. */
  function ShortEscape(c: byte): Option<nat> {
    if c == QUOTE || c == BACKSLASH || c == SLASH then Some(c as nat)
    else if c == 0x62 then Some(0x08)
    else if c == 0x66 then Some(0x0C)
    else if c == 0x6E then Some(0x0A)
    else if c == 0x72 then Some(0x0D)
    else if c == 0x74 then Some(0x09)
    else None
  }

  /** One char of a string: the code unit it stands for and its length. */
  function ReadChar(t: bytes): (r: Option<(nat, nat)>)
    ensures r.Some? ==> 0 < r.value.1 <= |t|
  {
    if t == [] || t[0] == QUOTE || t[0] < 0x20 then None
    else if t[0] == BACKSLASH then
      if |t| < 2 then None
      else if ShortEscape(t[1]).Some? then Some((ShortEscape(t[1]).value, 2))
      else if t[1] == 0x75 && |t| >= 6 && Hex4(t[2..]).Some? then Some((Hex4(t[2..]).value, 6))
      else None
    else
      match CharLen(t)
      case None => None
      case Some(n) => Some((CodePoint(t[..n]), n))
  }

  /** The code points of the chars up to the closing quote, which must end the text. */
  function ReadChars(t: bytes): Option<seq<nat>>
    decreases |t|
  {
    if t == [QUOTE] then Some([])
    else
      match ReadChar(t)
      case None => None
      case Some((p, n)) =>
        match ReadChars(t[n..])
        case None => None
        case Some(ps) => Some([p] + ps)
  }

  /** A JSON string read back; None if the text is not one. */
  function ReadString(t: bytes): Option<seq<nat>> {
    if t != [] && t[0] == QUOTE then ReadChars(t[1..]) else None
  }

  lemma AsciiReads(c: byte, rest: bytes)
    requires c < 0x80
    ensures ReadChar(WriteByte(c, true) + rest) == Some((c as nat, |WriteByte(c, true)|))
    ensures WriteByte(c, false) == WriteByte(c, true)
  {
    var w := WriteByte(c, true);
    var t := w + rest;
    assert forall i :: 0 <= i < |w| ==> t[i] == w[i];
    if w == [c] {
      assert IsChar([c]);
      CharLenIs([c], rest);
      assert t[..1] == [c];
    } else if w == UnicodeEscape(c) {
      EscapeReads(c, rest);
    }
  }

  lemma EscapeReads(c: byte, rest: bytes)
    ensures ReadChar(UnicodeEscape(c) + rest) == Some((c as nat, 6))
  {
    var w := UnicodeEscape(c);
    var t := w + rest;
    assert forall i :: 0 <= i < 6 ==> t[i] == w[i];
    assert forall i :: 0 <= i < 4 ==> t[2..][i] == w[i + 2];
    HexReads(c as nat / 16);
    HexReads(c as nat % 16);
    HexReads(0);
  }

  lemma HexReads(d: nat)
    requires d < 16
    ensures HexValue(HEX[d]) == Some(d)
  {
  }

  lemma ReadOne(w: bytes, p: nat, rest: bytes)
    requires ReadChar(w + rest) == Some((p, |w|)) && ReadChars(rest).Some?
    ensures ReadChars(w + rest) == Some([p] + ReadChars(rest).value)
  {
    hide ReadChar;
    assert (w + rest)[|w|..] == rest;
    QuoteEnds(w + rest);
  }

  lemma QuoteEnds(t: bytes)
    requires ReadChar(t).Some?
    ensures t != [QUOTE]
  {
  }

  function CodePoints(cs: seq<bytes>): seq<nat>
    requires AllChars(cs)
  {
    seq(|cs|, i requires 0 <= i < |cs| => CodePoint(cs[i]))
  }

  lemma CharReads(c: bytes, rest: bytes)
    requires IsChar(c)
    ensures ReadChar(WriteBytes(c, true) + rest) == Some((CodePoint(c), |WriteBytes(c, true)|))
  {
    hide *;
    CharShape(c);
    if |c| == 1 {
      AsciiReads(c[0], rest);
      OneIsWritten(c);
    } else {
      HighReads(c, rest);
    }
  }

  lemma CharShape(c: bytes)
    requires IsChar(c)
    ensures |c| == 1 ==> c[0] < 0x80 && CodePoint(c) == c[0] as nat
    ensures |c| != 1 ==> |c| > 1 && forall i :: 0 <= i < |c| ==> c[i] >= 0x80
  {
  }

  lemma OneIsWritten(c: bytes)
    requires |c| == 1
    ensures WriteBytes(c, true) == WriteByte(c[0], true)
  {
    hide WriteByte;
    assert c[1..] == [] && WriteByte(c[0], true) + [] == WriteByte(c[0], true);
  }

  lemma HighReads(c: bytes, rest: bytes)
    requires IsChar(c) && |c| > 1 && forall i :: 0 <= i < |c| ==> c[i] >= 0x80
    ensures ReadChar(WriteBytes(c, true) + rest) == Some((CodePoint(c), |WriteBytes(c, true)|))
  {
    hide IsChar, CodePoint, CharLen, WriteBytes, ShortEscape, Hex4;
    HighBytesStay(c);
    CharLenIs(c, rest);
    assert (c + rest)[..|c|] == c && (c + rest)[0] == c[0];
  }

  lemma {:induction false} HighBytesStay(s: bytes)
    requires forall i :: 0 <= i < |s| ==> s[i] >= 0x80
    ensures WriteBytes(s, true) == s
  {
    if s != [] { HighBytesStay(s[1..]); }
  }

  lemma {:induction false} WriteConcat(a: bytes, b: bytes, valid: bool)
    ensures WriteBytes(a + b, valid) == WriteBytes(a, valid) + WriteBytes(b, valid)
  {
    hide WriteByte;
    if a == [] {
      assert a + b == b && [] + WriteBytes(b, valid) == WriteBytes(b, valid);
    } else {
      WriteConcat(a[1..], b, valid);
      assert (a + b)[1..] == a[1..] + b;
      Associative(WriteByte(a[0], valid), WriteBytes(a[1..], valid), WriteBytes(b, valid));
    }
  }

  lemma {:induction false} ValidReads(cs: seq<bytes>)
    requires AllChars(cs)
    ensures ReadChars(WriteBytes(Concat(cs), true) + [QUOTE]) == Some(CodePoints(cs))
  {
    hide IsChar, CodePoint, ReadChar, ReadChars;
    if cs == [] {
      assert WriteBytes([], true) + [QUOTE] == [QUOTE];
      NothingReads();
    } else {
      var c := cs[0];
      ValidReads(cs[1..]);
      WriteConcat(c, Concat(cs[1..]), true);
      var w, rest := WriteBytes(c, true), WriteBytes(Concat(cs[1..]), true) + [QUOTE];
      Associative(w, WriteBytes(Concat(cs[1..]), true), [QUOTE]);
      CharReads(c, rest);
      ReadOne(w, CodePoint(c), rest);
      assert CodePoints(cs) == [CodePoint(c)] + CodePoints(cs[1..]);
    }
  }

  lemma NothingReads()
    ensures ReadChars([QUOTE]) == Some([])
  {
  }

  function ByteValues(s: bytes): seq<nat> { seq(|s|, i requires 0 <= i < |s| => s[i] as nat) }

  lemma ByteReads(c: byte, rest: bytes)
    ensures ReadChar(WriteByte(c, false) + rest) == Some((c as nat, |WriteByte(c, false)|))
  {
    if c < 0x80 { AsciiReads(c, rest); } else { EscapeReads(c, rest); }
  }

  lemma {:induction false} InvalidReads(s: bytes)
    ensures ReadChars(WriteBytes(s, false) + [QUOTE]) == Some(ByteValues(s))
  {
    hide ReadChar, ReadChars, WriteByte;
    if s == [] {
      assert WriteBytes([], false) + [QUOTE] == [QUOTE];
      NothingReads();
    } else {
      InvalidReads(s[1..]);
      var w, rest := WriteByte(s[0], false), WriteBytes(s[1..], false) + [QUOTE];
      Associative(w, WriteBytes(s[1..], false), [QUOTE]);
      ByteReads(s[0], rest);
      ReadOne(w, s[0] as nat, rest);
      assert ByteValues(s) == [s[0] as nat] + ByteValues(s[1..]);
    }
  }

  /**
   * JSON text is faithful: what is written is always a string of section 7 of
   * RFC 8259; UTF-8 reads back as its code points, anything else as one code point
   * per byte.
   */
  lemma JsonIsFaithful(s: bytes)
    ensures forall cs :: AllChars(cs) && Concat(cs) == s ==>
                           ReadString([QUOTE] + WriteBytes(s, true) + [QUOTE]) == Some(CodePoints(cs))
    ensures ReadString([QUOTE] + WriteBytes(s, false) + [QUOTE]) == Some(ByteValues(s))
  {
    hide ReadChars, WriteBytes, AllChars;
    forall cs | AllChars(cs) && Concat(cs) == s
      ensures ReadString([QUOTE] + WriteBytes(s, true) + [QUOTE]) == Some(CodePoints(cs))
    {
      ValidReads(cs);
      Unquote(WriteBytes(s, true));
    }
    InvalidReads(s);
    Unquote(WriteBytes(s, false));
  }

  lemma Unquote(w: bytes)
    ensures ([QUOTE] + w + [QUOTE])[0] == QUOTE && ([QUOTE] + w + [QUOTE])[1..] == w + [QUOTE]
  {
  }
}
