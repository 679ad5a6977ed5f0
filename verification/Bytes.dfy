// Bytes, the ASCII characters the programs test for, and the string searches
// that the C library does for them.

module Bytes {
  newtype byte = b: int | 0 <= b < 256
  type bytes = seq<byte>

  datatype Option<+T> = None | Some(value: T) {
    function GetOr(default: T): T { if Some? then value else default }
  }

  const NUL: byte := 0x00
  const TAB: byte := 0x09
  const LF: byte := 0x0A
  const CR: byte := 0x0D
  const SPACE: byte := 0x20
  const QUOTE: byte := 0x22
  const SLASH: byte := 0x2F
  const ZERO: byte := 0x30
  const LT: byte := 0x3C
  const GT: byte := 0x3E

  /** The bytes of an ASCII literal. */
  function Ascii(s: string): bytes
    requires forall i :: 0 <= i < |s| ==> s[i] < 128 as char
  {
    seq(|s|, i requires 0 <= i < |s| => s[i] as byte)
  }

  predicate IsBlank(c: byte) {
    c == SPACE || c == TAB || c == CR || c == LF
  }

  /** `isspace` in the C locale. */
  predicate IsSpace(c: byte) {
    c == SPACE || 0x09 <= c <= 0x0D
  }

  predicate IsDigit(c: byte) {
    ZERO <= c <= ZERO + 9
  }

  /** `%d` and `%zu` of a natural number. */
  function Decimal(n: nat): (r: bytes)
    ensures |r| > 0 && forall i :: 0 <= i < |r| ==> IsDigit(r[i])
  {
    (if n < 10 then [] else Decimal(n / 10)) + [ZERO + ((n % 10) as byte)]
  }

  predicate AllBlank(s: bytes) {
    forall i :: 0 <= i < |s| ==> IsBlank(s[i])
  }

  /** First position at or after `i` that does not hold a blank. */
  function SkipBlanks(s: bytes, i: nat): (r: nat)
    requires i <= |s|
    ensures i <= r <= |s|
    ensures forall k :: i <= k < r ==> IsBlank(s[k])
    ensures r < |s| ==> !IsBlank(s[r])
    decreases |s| - i
  {
    if i < |s| && IsBlank(s[i]) then SkipBlanks(s, i + 1) else i
  }

  function Concat(chunks: seq<bytes>): bytes {
    if chunks == [] then [] else chunks[0] + Concat(chunks[1..])
  }

  /** The last `n` bytes, or all of them. */
  function LastN(s: bytes, n: nat): (r: bytes)
    ensures |r| <= n && |r| <= |s|
  {
    if |s| <= n then s else s[|s| - n..]
  }

  lemma Associative(a: bytes, b: bytes, c: bytes)
    ensures a + b + c == a + (b + c)
  {
  }

  /** The C string in a buffer. */
  function CText(s: bytes): bytes {
    if s == [] || s[0] == NUL then [] else [s[0]] + CText(s[1..])
  }

  lemma {:induction false} CTextIs(s: bytes)
    requires NUL !in s
    ensures CText(s) == s
  {
    if s != [] {
      assert s[0] in s && forall c :: c in s[1..] ==> c in s;
      CTextIs(s[1..]);
    }
  }

  /** `strchr` on the C string held by `s`: first `c` before any NUL. */
  function FindByte(s: bytes, c: byte): (r: Option<nat>)
    ensures r.Some? ==> r.value < |s| && s[r.value] == c
    ensures r.Some? ==> forall k :: 0 <= k < r.value ==> s[k] != c && s[k] != NUL
  {
    if s == [] then None
    else if s[0] == c then Some(0)
    else if s[0] == NUL then None
    else match FindByte(s[1..], c) case None => None case Some(k) => Some(k + 1)
  }

  /** `strstr` on a buffer without NUL: first occurrence of `pat`. */
  function FindSub(s: bytes, pat: bytes): (r: Option<nat>)
    ensures r.Some? ==> r.value + |pat| <= |s|
  {
    if pat <= s then Some(0)
    else if s == [] then None
    else match FindSub(s[1..], pat) case None => None case Some(n) => Some(n + 1)
  }

  ghost predicate FirstAt(s: bytes, pat: bytes, k: nat) {
    k <= |s| && pat <= s[k..] && forall i :: 0 <= i < k ==> !(pat <= s[i..])
  }

  /** `FindSub` finds the first occurrence, and finds one if there is one. */
  lemma {:induction false} FindSubExact(s: bytes, pat: bytes, k: nat)
    ensures FindSub(s, pat) == Some(k) <==> FirstAt(s, pat, k)
  {
    if pat <= s {
      assert s[0..] == s;
    } else if s == [] {
      assert s[0..] == s;
    } else {
      assert s[0..] == s;
      if k > 0 {
        FindSubExact(s[1..], pat, k - 1);
        assert forall i :: 0 < i <= |s| ==> s[i..] == s[1..][i - 1..];
        assert forall i :: 0 <= i < |s| ==> s[1..][i..] == s[i + 1..];
      }
    }
  }

  lemma {:induction false} FindSubNone(s: bytes, pat: bytes)
    ensures FindSub(s, pat).None? <==> forall k :: 0 <= k <= |s| ==> !(pat <= s[k..])
  {
    assert s[0..] == s;
    if !(pat <= s) && s != [] {
      FindSubNone(s[1..], pat);
      assert forall i :: 0 < i <= |s| ==> s[i..] == s[1..][i - 1..];
      assert forall i :: 0 <= i < |s| ==> s[1..][i..] == s[i + 1..];
    }
  }

  lemma FindSubStable(s: bytes, more: bytes, pat: bytes)
    requires FindSub(s, pat).Some?
    ensures FindSub(s + more, pat) == FindSub(s, pat)
  {
    hide FindSub;
    var k := FindSub(s, pat).value;
    FindSubExact(s, pat, k);
    assert (s + more)[k..] == s[k..] + more;
    forall i | 0 <= i < k ensures !(pat <= (s + more)[i..]) {
      assert (s + more)[i..] == s[i..] + more;
    }
    FindSubExact(s + more, pat, k);
  }

  /** One more byte can only bring an occurrence that ends there. */
  lemma FindSubLast(s: bytes, c: byte, pat: bytes)
    requires |pat| > 0 && FindSub(s, pat).None?
    ensures var t := s + [c]; var k := |t| - |pat|;
      if k >= 0 && t[k..] == pat then FindSub(t, pat) == Some(k) else FindSub(t, pat).None?
  {
    hide FindSub;
    FindSubNone(s, pat);
    var t := s + [c];
    var k := |t| - |pat|;
    forall i | 0 <= i <= |t| && i != k ensures !(pat <= t[i..]) {
      if i < k {
        assert t[i..] == s[i..] + [c];
        assert !(pat <= s[i..]);
      }
    }
    if k >= 0 && t[k..] == pat {
      FindSubExact(t, pat, k);
    } else {
      FindSubNone(t, pat);
    }
  }
}
