// Printing tool calls in the shape the system prompt teaches (ds4_agent.c:721-728)
// and parsing them back, for every tolerated spelling of the closing tags and any
// blanks between tags.

module DsmlRoundTrip {
  import opened Bytes
  import opened DsmlTags
  import opened DsmlParse
  import opened DsmlStream

  const NAME_EQ: bytes := Ascii(" name=")
  const STRING_EQ: bytes := Ascii("string=")
  const FALSE: bytes := Ascii("false")

  datatype PrintedArg = PrintedArg(gap: bytes, arg: Arg, close: Spelling)
  datatype PrintedCall = PrintedCall(gap: bytes, name: bytes, args: seq<PrintedArg>, closeGap: bytes, close: Spelling)
  datatype Document = Document(calls: seq<PrintedCall>, endGap: bytes, close: Spelling)

  // ---------------------------------------------------------------- printing

  function InvokeTag(name: bytes): bytes {
    OPEN + INVOKE + NAME_EQ + [QUOTE] + name + [QUOTE, GT]
  }

  function ParamTag(a: Arg): bytes {
    OPEN + PARAMETER + NAME_EQ + [QUOTE] + a.name + [QUOTE, SPACE] + STRING_EQ + [QUOTE]
    + (if a.isString then TRUE else FALSE) + [QUOTE, GT]
  }

  function PrintArgs(args: seq<PrintedArg>): bytes {
    if args == [] then []
    else
      var p := args[0];
      p.gap + (ParamTag(p.arg) + (p.arg.value + (CloseWord(PARAMETER, p.close) + PrintArgs(args[1..]))))
  }

  function PrintCalls(calls: seq<PrintedCall>): bytes {
    if calls == [] then []
    else
      var c := calls[0];
      c.gap + (InvokeTag(c.name) + (PrintArgs(c.args) + (c.closeGap + (CloseWord(INVOKE, c.close) + PrintCalls(calls[1..])))))
  }

  function Print(d: Document): bytes {
    START + (PrintCalls(d.calls) + (d.endGap + CloseWord(TOOL_CALLS, d.close)))
  }

  /** Blanks between tags and tolerated spellings: the freedom of the writer. */
  predicate WellSpaced(d: Document) {
    && AllBlank(d.endGap) && ValidSpelling(d.close)
    && forall c :: c in d.calls ==> WellSpacedCall(c)
  }

  predicate WellSpacedCall(c: PrintedCall) {
    && AllBlank(c.gap) && AllBlank(c.closeGap) && ValidSpelling(c.close)
    && forall a :: a in c.args ==> AllBlank(a.gap) && ValidSpelling(a.close)
  }

  function Args(args: seq<PrintedArg>): seq<Arg> {
    if args == [] then [] else [args[0].arg] + Args(args[1..])
  }

  function Calls(calls: seq<PrintedCall>): seq<Call> {
    if calls == [] then [] else [Call(calls[0].name, Args(calls[0].args))] + Calls(calls[1..])
  }

  // ------------------------------------------------------------ what reads back

  predicate NameOk(name: bytes) {
    QUOTE !in name && GT !in name && NUL !in name
  }

  predicate ValueOk(value: bytes) {
    NUL !in value && FindClose(value).None?
  }

  predicate EndsInStringEq(name: bytes) {
    |name| >= |STRING_EQ| && name[|name| - |STRING_EQ|..] == STRING_EQ
  }

  predicate ArgOk(a: Arg) { NameOk(a.name) && ValueOk(a.value) }

  predicate CallOk(c: Call) {
    NameOk(c.name) && forall a :: a in c.args ==> ArgOk(a)
  }

  /** What the parser reports for a printed argument: a name ending in `string=` hides the flag. */
  function Seen(a: Arg): Arg { a.(isString := a.isString && !EndsInStringEq(a.name)) }

  function SeenArgs(args: seq<Arg>): seq<Arg> { seq(|args|, i requires 0 <= i < |args| => Seen(args[i])) }

  function SeenCalls(calls: seq<Call>): seq<Call> {
    seq(|calls|, i requires 0 <= i < |calls| => Call(calls[i].name, SeenArgs(calls[i].args)))
  }

  // ---------------------------------------------------------------- opening tags

  lemma RoundTripLiterals()
    ensures |NAME_EQ| == 6 && |STRING_EQ| == 7 && NAME_EQ == [SPACE] + NAME + [0x3D] && STRING_EQ == STRING + [0x3D]
    ensures QUOTE !in NAME_EQ && QUOTE !in STRING_EQ && GT !in NAME_EQ && GT !in STRING_EQ
    ensures NUL !in NAME_EQ && NUL !in STRING_EQ && Plain(FALSE) && TRUE != FALSE && STRING_EQ[0] == 0x73
    ensures |PARAMETER| == 9 && PARAMETER[8] == 0x72 && |INVOKE| == 6
    ensures OPEN[1] != SLASH && OPEN[0] == LT && |OPEN| == 11
    ensures QUOTE !in OPEN && GT !in OPEN && NUL !in OPEN
    ensures QUOTE !in INVOKE && QUOTE !in PARAMETER && GT !in INVOKE && GT !in PARAMETER && NUL !in INVOKE && NUL !in PARAMETER
    ensures INVOKE[0] != PARAMETER[0] && |TRUE| == 4
  {
    LiteralsArePlain();
  }

  lemma {:induction false} FindByteIs(s: bytes, c: byte, k: nat)
    requires k < |s| && s[k] == c && c !in s[..k] && NUL !in s[..k]
    ensures FindByte(s, c) == Some(k)
  {
    if k > 0 {
      assert s[0] == s[..k][0];
      assert s[1..][..k - 1] == s[..k][1..];
      FindByteIs(s[1..], c, k - 1);
    }
  }

  /** An attribute is read up to its closing quote when its pattern occurs first at `k`. */
  lemma AttrIs(tag: bytes, name: bytes, k: nat, value: bytes, rest: bytes)
    requires FirstAt(tag, name + [0x3D, QUOTE], k)
    requires tag[k..] == name + [0x3D, QUOTE] + value + [QUOTE] + rest && QUOTE !in value && NUL !in value
    ensures ParseAttr(tag, name) == Some(value)
  {
    var pat := name + [0x3D, QUOTE];
    FindSubExact(tag, pat, k);
    var after := tag[k + |pat|..];
    assert tag[k..][|pat|..] == after;
    assert after == value + ([QUOTE] + rest);
    assert after[..|value|] == value;
    FindByteIs(after, QUOTE, |value|);
  }

  /** No pattern that ends in a quote occurs before `k` if the text has no quote before its end at `k`. */
  lemma NoEarlierAttr(a: bytes, pat: bytes, rest: bytes)
    requires |pat| > 0 && pat[|pat| - 1] == QUOTE && QUOTE !in a && QUOTE !in pat[..|pat| - 1]
    ensures FirstAt(a + pat + rest, pat, |a|)
  {
    var tag := a + pat + rest;
    assert tag[|a|..] == pat + rest;
    forall i | 0 <= i < |a| ensures !(pat <= tag[i..]) {
      var q := i + |pat| - 1;
      assert q < |tag|;
      if q < |a| {
        assert tag[q] == a[q] && a[q] in a;
      } else {
        assert tag[q] == pat[q - |a|] == pat[..|pat| - 1][q - |a|];
      }
      assert tag[i..][|pat| - 1] == tag[q] != QUOTE;
    }
  }

  lemma NameAttr(a: bytes, name: bytes, rest: bytes)
    requires QUOTE !in a && NameOk(name)
    ensures ParseAttr(a + NAME_EQ + [QUOTE] + name + [QUOTE] + rest, NAME) == Some(name)
  {
    hide NAME, NAME_EQ, STRING_EQ;
    RoundTripLiterals();
    LiteralsArePlain();
    var pat := NAME + [0x3D, QUOTE];
    var tag := a + NAME_EQ + [QUOTE] + name + [QUOTE] + rest;
    var a' := a + [SPACE];
    var tail := name + [QUOTE] + rest;
    assert NAME_EQ + [QUOTE] == [SPACE] + pat;
    assert tag == a' + pat + tail;
    assert pat[..|pat| - 1] == NAME + [0x3D];
    NoEarlierAttr(a', pat, tail);
    assert tag[|a'|..] == pat + name + [QUOTE] + rest;
    AttrIs(tag, NAME, |a'|, name, rest);
  }

  /** Up to the quote that ends the name, `string="` occurs only as the end of the name. */
  lemma StringPatternAt(a: bytes, n: bytes, mid: bytes, i: nat)
    requires |a| > 0 && QUOTE !in a && a[|a| - 1] != STRING_EQ[0] && NameOk(n)
    requires i + |STRING_EQ| <= |a| + |NAME_EQ| + 1 + |n|
    ensures var t := a + NAME_EQ + [QUOTE] + n + [QUOTE] + mid;
      STRING_EQ + [QUOTE] <= t[i..] <==> EndsInStringEq(n) && i + |STRING_EQ| == |a| + |NAME_EQ| + 1 + |n|
  {
    hide NAME_EQ, STRING_EQ;
    RoundTripLiterals();
    var t := a + NAME_EQ + [QUOTE] + n + [QUOTE] + mid;
    var pat := STRING_EQ + [QUOTE];
    var q1 := |a| + 6;
    var q2 := q1 + 1 + |n|;
    assert t[q1] == QUOTE && t[q2] == QUOTE && t[|a| - 1] == a[|a| - 1];
    assert forall m :: 0 <= m < |a| ==> t[m] == a[m];
    assert forall m :: |a| <= m < q1 ==> t[m] == NAME_EQ[m - |a|];
    assert forall m :: q1 < m < q2 ==> t[m] == n[m - q1 - 1];
    assert forall m :: 0 <= m < q2 && m != q1 ==> t[m] != QUOTE;
    assert forall j :: 0 <= j < 7 ==> pat[j] == STRING_EQ[j] != QUOTE;
    if pat <= t[i..] {
      assert forall m :: i <= m <= i + 7 ==> t[m] == t[i..][m - i] == pat[m - i];
      assert t[i + 7] == pat[7] == QUOTE && t[i] == pat[0];
      assert i + 7 == q2;
      assert |n| >= 7;
      assert n[|n| - 7..] == t[i..][..7];
    }
    if EndsInStringEq(n) && i + 7 == q2 {
      assert t[i..q2] == n[|n| - 7..];
      assert t[i..] == t[i..q2] + [QUOTE] + mid;
    }
  }

  /** The `string` attribute is read back unless the name ends in `string=`. */
  lemma StringAttr(a: bytes, n: bytes, v: bytes)
    requires |a| > 0 && QUOTE !in a && a[|a| - 1] != STRING_EQ[0] && NameOk(n) && QUOTE !in v && NUL !in v
    ensures ParseAttr(a + NAME_EQ + [QUOTE] + n + [QUOTE] + ([SPACE] + STRING_EQ + [QUOTE] + v + [QUOTE, GT]), STRING)
         == Some(if EndsInStringEq(n) then [SPACE] + STRING_EQ else v)
  {
    hide NAME_EQ, STRING_EQ, STRING, ParseAttr;
    RoundTripLiterals();
    var end := v + [QUOTE, GT];
    var mid := [SPACE] + STRING_EQ + [QUOTE] + v + [QUOTE, GT];
    var t := a + NAME_EQ + [QUOTE] + n + [QUOTE] + mid;
    var pat := STRING_EQ + [QUOTE];
    assert pat == STRING + [0x3D, QUOTE];
    var q2 := |a| + 7 + |n|;
    assert t[q2..] == [QUOTE] + mid;
    if EndsInStringEq(n) {
      var k: nat := q2 - 7;
      forall i | 0 <= i <= k ensures pat <= t[i..] <==> i == k { StringPatternAt(a, n, mid, i); }
      assert t[k..] == n[|n| - 7..] + t[q2..];
      assert t[k..] == pat + ([SPACE] + STRING_EQ) + [QUOTE] + end;
      AttrIs(t, STRING, k, [SPACE] + STRING_EQ, end);
    } else {
      var k := q2 + 2;
      assert t[k..] == STRING_EQ + [QUOTE] + v + [QUOTE, GT];
      forall i | 0 <= i < k ensures !(pat <= t[i..]) {
        if i + 7 <= q2 {
          StringPatternAt(a, n, mid, i);
        } else {
          assert t[i + 7] == mid[i + 7 - q2 - 1];
          assert i + 7 == q2 + 1 || t[i + 7] == STRING_EQ[i + 7 - q2 - 2];
          assert t[i..][7] == t[i + 7] != pat[7];
        }
      }
      assert t[k..] == pat + v + [QUOTE] + [GT];
      AttrIs(t, STRING, k, v, [GT]);
    }
  }

  // ------------------------------------------------------------ parser steps

  /** The slices a parse walks through. */
  lemma Walk(raw: bytes, p: nat, a: bytes, b: bytes)
    requires p <= |raw| && raw[p..] == a + b
    ensures p + |a| <= |raw| && raw[p + |a|..] == b && raw[p..p + |a|] == a
  {
    assert raw[p..][|a|..] == raw[p + |a|..];
    assert raw[p..][..|a|] == raw[p..p + |a|];
  }

  lemma SkipGap(raw: bytes, p: nat, gap: bytes, t: bytes)
    requires p <= |raw| && raw[p..] == gap + t && AllBlank(gap) && t != [] && !IsBlank(t[0])
    ensures SkipBlanks(raw, p) == p + |gap| && raw[p + |gap|..] == t
  {
    Walk(raw, p, gap, t);
    var q := p + |gap|;
    assert raw[q] == raw[q..][0];
    assert forall k :: p <= k < q ==> raw[k] == raw[p..q][k - p];
  }

  lemma OpenTagNoClose(t: bytes, name: bytes)
    requires |t| > 1 && t[1] != SLASH
    ensures CloseTag(t, name).None?
  {
    assert (CLOSE + name)[1] == SLASH;
  }

  /** An opening tag whose first `>` is its last byte. */
  predicate IsOpening(tag: bytes) {
    |tag| > 1 && tag[0] == LT && tag[1] != SLASH && tag[|tag| - 1] == GT
    && GT !in tag[..|tag| - 1] && NUL !in tag
  }

  lemma StepOpens(raw: bytes, c: Core, gap: bytes, tag: bytes, rest: bytes)
    requires DsmlParse.Valid(raw, c) && c.phase == Structural
    requires AllBlank(gap) && IsOpening(tag) && raw[c.pos..] == gap + (tag + rest)
    ensures Step(raw, c) == Go(OpenTag(c.(pos := c.pos + |gap|), tag))
  {
    hide CloseTag, SkipBlanks, OpenTag, FindByte;
    var t := tag + rest;
    assert t[0] == LT && t[1] == tag[1];
    SkipGap(raw, c.pos, gap, t);
    OpenTagNoClose(t, TOOL_CALLS);
    OpenTagNoClose(t, INVOKE);
    assert t[..|tag| - 1] == tag[..|tag| - 1] && t[|tag| - 1] == GT;
    assert forall x :: x in tag[..|tag| - 1] ==> x in tag;
    FindByteIs(t, GT, |tag| - 1);
    assert t[..|tag|] == tag;
  }

  /** Bytes that may stand inside an opening tag. */
  predicate Inner(s: bytes) { GT !in s && NUL !in s }

  lemma InnerConcat(a: bytes, b: bytes)
    requires Inner(a) && Inner(b)
    ensures Inner(a + b)
  {
  }

  lemma OpeningShape(name: bytes, body: bytes)
    requires Inner(name) && Inner(body) && |body| > 0 && IsBlank(body[0])
    ensures var tag := OPEN + name + body + [GT];
      IsOpening(tag) && OpenTagIs(tag, name)
      && forall other: bytes :: |name| > 0 && |other| > 0 && name[0] != other[0] ==> !OpenTagIs(tag, other)
  {
    hide OPEN;
    RoundTripLiterals();
    var inner := OPEN + name + body;
    InnerConcat(OPEN, name);
    InnerConcat(OPEN + name, body);
    var tag := inner + [GT];
    assert tag[..|tag| - 1] == inner;
    assert forall x :: x in tag ==> x in inner || x == GT;
    assert tag == (OPEN + name) + (body + [GT]);
    assert tag[|OPEN + name|] == body[0];
    assert tag[0] == OPEN[0] && tag[1] == OPEN[1];
    forall other: bytes | |name| > 0 && |other| > 0 && name[0] != other[0] ensures !OpenTagIs(tag, other) {
      assert tag[|OPEN|] == name[0];
      assert (OPEN + other)[|OPEN|] == other[0];
    }
  }

  lemma InvokeTagShape(name: bytes)
    requires NameOk(name)
    ensures IsOpening(InvokeTag(name)) && OpenTagIs(InvokeTag(name), INVOKE)
    ensures ParseAttr(InvokeTag(name), NAME) == Some(name)
  {
    hide OPEN, INVOKE, NAME_EQ, ParseAttr, IsOpening, OpenTagIs;
    RoundTripLiterals();
    var tag := InvokeTag(name);
    NameAttr(OPEN + INVOKE, name, [GT]);
    assert tag == OPEN + INVOKE + NAME_EQ + [QUOTE] + name + [QUOTE] + [GT];
    InnerConcat(NAME_EQ, [QUOTE]);
    InnerConcat(NAME_EQ + [QUOTE], name);
    var body := NAME_EQ + [QUOTE] + name + [QUOTE];
    OpeningShape(INVOKE, body);
    assert tag == OPEN + INVOKE + body + [GT];
  }

  lemma ParamTagShape(a: Arg)
    requires NameOk(a.name)
    ensures IsOpening(ParamTag(a)) && OpenTagIs(ParamTag(a), PARAMETER) && !OpenTagIs(ParamTag(a), INVOKE)
    ensures ParseAttr(ParamTag(a), NAME) == Some(a.name)
    ensures (ParseAttr(ParamTag(a), STRING) == Some(TRUE)) == Seen(a).isString
  {
    hide OPEN, INVOKE, PARAMETER, NAME_EQ, STRING_EQ, TRUE, FALSE, ParseAttr, IsOpening, OpenTagIs;
    RoundTripLiterals();
    LiteralsArePlain();
    var v := if a.isString then TRUE else FALSE;
    var open := OPEN + PARAMETER;
    ParamTagSplits(a, v);
    var mid := [SPACE] + STRING_EQ + [QUOTE] + v + [QUOTE, GT];
    NameAttr(open, a.name, mid);
    assert open[|open| - 1] == PARAMETER[8];
    StringAttr(open, a.name, v);
    assert |[SPACE] + STRING_EQ| != |TRUE|;
    var body := ParamBody(a.name, v);
    ParamBodyInner(a.name, v);
    OpeningShape(PARAMETER, body);
  }

  function ParamBody(n: bytes, v: bytes): bytes {
    NAME_EQ + [QUOTE] + n + [QUOTE, SPACE] + STRING_EQ + [QUOTE] + v + [QUOTE]
  }

  lemma ParamBodyInner(n: bytes, v: bytes)
    requires NameOk(n) && Plain(v)
    ensures var b := ParamBody(n, v); Inner(b) && |b| > 0 && IsBlank(b[0])
  {
    hide NAME_EQ, STRING_EQ;
    RoundTripLiterals();
    InnerConcat(NAME_EQ, [QUOTE]);
    InnerConcat(NAME_EQ + [QUOTE], n);
    InnerConcat(NAME_EQ + [QUOTE] + n, [QUOTE, SPACE]);
    InnerConcat(NAME_EQ + [QUOTE] + n + [QUOTE, SPACE], STRING_EQ);
    InnerConcat(NAME_EQ + [QUOTE] + n + [QUOTE, SPACE] + STRING_EQ, [QUOTE]);
    InnerConcat(NAME_EQ + [QUOTE] + n + [QUOTE, SPACE] + STRING_EQ + [QUOTE], v);
    InnerConcat(NAME_EQ + [QUOTE] + n + [QUOTE, SPACE] + STRING_EQ + [QUOTE] + v, [QUOTE]);
    assert ParamBody(n, v)[0] == NAME_EQ[0];
  }

  lemma ParamTagSplits(a: Arg, v: bytes)
    requires v == if a.isString then TRUE else FALSE
    ensures ParamTag(a) == OPEN + PARAMETER + ParamBody(a.name, v) + [GT]
    ensures ParamTag(a) == (OPEN + PARAMETER) + NAME_EQ + [QUOTE] + a.name + [QUOTE]
                         + ([SPACE] + STRING_EQ + [QUOTE] + v + [QUOTE, GT])
  {
    hide OPEN, PARAMETER, NAME_EQ, STRING_EQ, TRUE, FALSE;
  }

  // ------------------------------------------------------------ reading it back

  /** A value without NUL and without a close tag of its own ends at the printed close tag. */
  lemma {:induction false} ValueEnds(value: bytes, s: Spelling, rest: bytes)
    requires ValueOk(value) && ValidSpelling(s)
    ensures FindClose(value + (CloseWord(PARAMETER, s) + rest)) == Some((|value|, |CloseWord(PARAMETER, s)|))
  {
    hide CloseTag, CloseWord, PARAMETER;
    var w := CloseWord(PARAMETER, s);
    var t := value + (w + rest);
    LiteralsArePlain();
    CloseWordShape(PARAMETER, s);
    if value == [] {
      assert t == w + rest;
      CloseTagComplete(PARAMETER, s, rest);
    } else {
      assert t[1..] == value[1..] + (w + rest);
      ValueEnds(value[1..], s, rest);
      NoCloseInside(value, w, rest);
    }
  }

  lemma NoCloseInside(value: bytes, w: bytes, rest: bytes)
    requires value != [] && CloseTag(value, PARAMETER).None? && w != [] && w[0] == LT
    ensures CloseTag(value + (w + rest), PARAMETER).None?
  {
    hide CloseTag, CloseWord, PARAMETER;
    LiteralsArePlain();
    var t := value + (w + rest);
    if CloseTag(t, PARAMETER).Some? {
      var n := CloseTag(t, PARAMETER).value;
      CloseTagSound(t, PARAMETER);
      var s: Spelling :| ValidSpelling(s) && t[..n] == CloseWord(PARAMETER, s);
      CloseWordShape(PARAMETER, s);
      assert t[|value|] == LT;
      assert n <= |value|;
      assert value[..n] == t[..n];
      CloseTagExact(value, PARAMETER, n);
    }
  }

  lemma StepParam(raw: bytes, c: Core, gap: bytes, a: Arg, rest: bytes) returns (v: Core)
    requires DsmlParse.Valid(raw, c) && c.phase == Structural && AllBlank(gap) && NameOk(a.name)
    requires raw[c.pos..] == gap + (ParamTag(a) + rest)
    ensures DsmlParse.Valid(raw, v) && v.phase == ParamValue && Step(raw, c) == Go(v) && raw[v.pos..] == rest
    ensures v.calls == c.calls && v.draft == c.draft && v.paramName == Some(a.name) && v.paramIsString == Seen(a).isString
  {
    hide PARAMETER, INVOKE, TRUE, ParamTag, IsOpening, ParseAttr, OpenTagIs, EndsInStringEq, Step;
    var tag := ParamTag(a);
    ParamTagShape(a);
    StepOpens(raw, c, gap, tag, rest);
    Walk(raw, c.pos, gap, tag + rest);
    var at := c.(pos := c.pos + |gap|);
    Walk(raw, at.pos, tag, rest);
    v := OpenTag(at, tag);
  }

  lemma StepValue(raw: bytes, v: Core, value: bytes, s: Spelling, rest: bytes) returns (d: Core)
    requires DsmlParse.Valid(raw, v) && v.phase == ParamValue && ValueOk(value) && ValidSpelling(s)
    requires raw[v.pos..] == value + (CloseWord(PARAMETER, s) + rest)
    ensures DsmlParse.Valid(raw, d) && d.phase == Structural && Step(raw, v) == Go(d) && raw[d.pos..] == rest
    ensures d.calls == v.calls
    ensures d.draft == v.draft.(args := v.draft.args + [Arg(v.paramName.GetOr([]), value, v.paramIsString)])
  {
    hide PARAMETER, CloseWord, FindClose, ValidSpelling, ValueOk;
    var w := CloseWord(PARAMETER, s);
    ValueEnds(value, s, rest);
    Walk(raw, v.pos, value, w + rest);
    Walk(raw, v.pos + |value|, w, rest);
    d := CloseParam(v, raw, |value|, |w|);
  }

  lemma ParseArg(raw: bytes, c: Core, p: PrintedArg, rest: bytes) returns (d: Core)
    requires DsmlParse.Valid(raw, c) && c.phase == Structural
    requires AllBlank(p.gap) && ValidSpelling(p.close) && ArgOk(p.arg)
    requires raw[c.pos..] == p.gap + (ParamTag(p.arg) + (p.arg.value + (CloseWord(PARAMETER, p.close) + rest)))
    ensures DsmlParse.Valid(raw, d) && d.phase == Structural && Parse(raw, c) == Parse(raw, d)
    ensures d.calls == c.calls && d.draft == c.draft.(args := c.draft.args + [Seen(p.arg)]) && raw[d.pos..] == rest
  {
    hide PARAMETER, CloseWord, ParamTag, EndsInStringEq, Step, NameOk, ValueOk, AllBlank, ValidSpelling;
    var v := StepParam(raw, c, p.gap, p.arg, p.arg.value + (CloseWord(PARAMETER, p.close) + rest));
    d := StepValue(raw, v, p.arg.value, p.close, rest);
    assert Parse(raw, c) == Parse(raw, v) == Parse(raw, d);
  }

  lemma {:induction false} ParseArgs(raw: bytes, c: Core, args: seq<PrintedArg>, rest: bytes) returns (d: Core)
    requires DsmlParse.Valid(raw, c) && c.phase == Structural
    requires forall p :: p in args ==> AllBlank(p.gap) && ValidSpelling(p.close) && ArgOk(p.arg)
    requires raw[c.pos..] == PrintArgs(args) + rest
    ensures DsmlParse.Valid(raw, d) && d.phase == Structural && Parse(raw, c) == Parse(raw, d)
    ensures d.calls == c.calls && raw[d.pos..] == rest
    ensures d.draft == c.draft.(args := c.draft.args + SeenArgs(Args(args)))
    decreases |args|
  {
    hide Parse, CloseWord, ParamTag, ArgOk, AllBlank, ValidSpelling, Seen;
    if args == [] {
      d := c;
      assert c.draft.args + SeenArgs(Args(args)) == c.draft.args;
      assert PrintArgs(args) + rest == rest;
    } else {
      var p := args[0];
      var more := PrintArgs(args[1..]) + rest;
      ArgRegroup(p.gap, ParamTag(p.arg), p.arg.value, CloseWord(PARAMETER, p.close), PrintArgs(args[1..]), rest);
      var e := ParseArg(raw, c, p, more);
      d := ParseArgs(raw, e, args[1..], rest);
      assert [Seen(p.arg)] + SeenArgs(Args(args[1..])) == SeenArgs(Args(args));
      assert c.draft.args + [Seen(p.arg)] + SeenArgs(Args(args[1..])) == c.draft.args + SeenArgs(Args(args));
    }
  }

  lemma ArgRegroup(a: bytes, b: bytes, c: bytes, d: bytes, e: bytes, rest: bytes)
    ensures a + (b + (c + (d + e))) + rest == a + (b + (c + (d + (e + rest))))
  {
  }

  lemma StepCloses(raw: bytes, c: Core, gap: bytes, name: bytes, s: Spelling, rest: bytes)
    requires DsmlParse.Valid(raw, c) && c.phase == Structural && AllBlank(gap) && ValidSpelling(s)
    requires name == INVOKE || name == TOOL_CALLS
    requires raw[c.pos..] == gap + (CloseWord(name, s) + rest)
    ensures var pos := c.pos + |gap| + |CloseWord(name, s)|;
      && pos <= |raw| && raw[pos..] == rest
      && Step(raw, c) == Go(Push(c.(pos := c.pos + |gap|)).(pos := pos, phase := if name == INVOKE then Structural else Done))
  {
    hide CloseTag, CloseWord, INVOKE, TOOL_CALLS, SkipBlanks, Push;
    LiteralsArePlain();
    var w := CloseWord(name, s);
    CloseWordShape(name, s);
    assert (w + rest)[0] == w[0];
    SkipGap(raw, c.pos, gap, w + rest);
    Walk(raw, c.pos, gap, w + rest);
    Walk(raw, c.pos + |gap|, w, rest);
    CloseTagComplete(name, s, rest);
    assert INVOKE[0] != TOOL_CALLS[0] && |INVOKE| > 0 && |TOOL_CALLS| > 0 by { NamesDiffer(); }
    if name == INVOKE { CloseTagNames(w + rest, INVOKE, TOOL_CALLS); }
    PushKeeps(c.(pos := c.pos + |gap|));
  }

  lemma NamesDiffer()
    ensures INVOKE[0] != TOOL_CALLS[0] && |INVOKE| > 0 && |TOOL_CALLS| > 0
  {
  }

  lemma PushKeeps(c: Core)
    ensures Push(c).phase == c.phase && Push(c).pos == c.pos
  {
  }

  lemma ParseCall(raw: bytes, c: Core, p: PrintedCall, rest: bytes) returns (d: Core)
    requires DsmlParse.Valid(raw, c) && c.phase == Structural && c.draft == EMPTY
    requires WellSpacedCall(p) && CallOk(Call(p.name, Args(p.args)))
    requires raw[c.pos..] == p.gap + (InvokeTag(p.name) + (PrintArgs(p.args) + (p.closeGap + (CloseWord(INVOKE, p.close) + rest))))
    ensures DsmlParse.Valid(raw, d) && d.phase == Structural && Parse(raw, c) == Parse(raw, d) && d.draft == EMPTY
    ensures d.calls == c.calls + [Call(p.name, SeenArgs(Args(p.args)))] && raw[d.pos..] == rest
  {
    hide CloseTag, CloseWord, INVOKE, InvokeTag, PrintArgs, IsOpening, ParseAttr, OpenTagIs, Step, Parse, Args, SeenArgs;
    var tag := InvokeTag(p.name);
    var tail := p.closeGap + (CloseWord(INVOKE, p.close) + rest);
    var body := PrintArgs(p.args) + tail;
    InvokeTagShape(p.name);
    StepOpens(raw, c, p.gap, tag, body);
    Walk(raw, c.pos, p.gap, tag + body);
    var at := c.(pos := c.pos + |p.gap|);
    Walk(raw, at.pos, tag, body);
    var v := OpenTag(at, tag);
    ArgsOk(p);
    var e := ParseArgs(raw, v, p.args, tail);
    StepCloses(raw, e, p.closeGap, INVOKE, p.close, rest);
    var pos := e.pos + |p.closeGap| + |CloseWord(INVOKE, p.close)|;
    d := Push(e.(pos := e.pos + |p.closeGap|)).(pos := pos, phase := Structural);
    assert [] + SeenArgs(Args(p.args)) == SeenArgs(Args(p.args));
    ParseGoes(raw, e, d);
    ParseGoes(raw, c, v);
  }

  lemma ParseGoes(raw: bytes, c: Core, d: Core)
    requires DsmlParse.Valid(raw, c) && DsmlParse.Active(c) && Step(raw, c) == Go(d)
    ensures DsmlParse.Valid(raw, d) && Parse(raw, c) == Parse(raw, d)
  {
    hide Step;
  }

  lemma {:induction false} ArgsIn(args: seq<PrintedArg>)
    ensures |Args(args)| == |args| && forall i :: 0 <= i < |args| ==> Args(args)[i] == args[i].arg
  {
    if args != [] { ArgsIn(args[1..]); }
  }

  lemma ArgsOk(p: PrintedCall)
    requires WellSpacedCall(p) && CallOk(Call(p.name, Args(p.args)))
    ensures forall a :: a in p.args ==> AllBlank(a.gap) && ValidSpelling(a.close) && ArgOk(a.arg)
  {
    hide ArgOk, ValidSpelling, AllBlank, Args;
    ArgsIn(p.args);
    forall a | a in p.args ensures ArgOk(a.arg) {
      var i :| 0 <= i < |p.args| && p.args[i] == a;
      assert Args(p.args)[i] in Args(p.args);
    }
  }

  lemma {:induction false} ParseCalls(raw: bytes, c: Core, calls: seq<PrintedCall>, rest: bytes) returns (d: Core)
    requires DsmlParse.Valid(raw, c) && c.phase == Structural && c.draft == EMPTY
    requires forall p :: p in calls ==> WellSpacedCall(p) && CallOk(Call(p.name, Args(p.args)))
    requires raw[c.pos..] == PrintCalls(calls) + rest
    ensures DsmlParse.Valid(raw, d) && d.phase == Structural && Parse(raw, c) == Parse(raw, d) && d.draft == EMPTY
    ensures d.calls == c.calls + SeenCalls(Calls(calls)) && raw[d.pos..] == rest
    decreases |calls|
  {
    hide Parse, CloseWord, InvokeTag, PrintArgs, CallOk, WellSpacedCall, Args, SeenArgs;
    if calls == [] {
      d := c;
      assert c.calls + SeenCalls(Calls(calls)) == c.calls;
      assert PrintCalls(calls) + rest == rest;
    } else {
      var p := calls[0];
      var more := PrintCalls(calls[1..]) + rest;
      CallRegroup(p.gap, InvokeTag(p.name), PrintArgs(p.args), p.closeGap, CloseWord(INVOKE, p.close), PrintCalls(calls[1..]), rest);
      var e := ParseCall(raw, c, p, more);
      d := ParseCalls(raw, e, calls[1..], rest);
      var seen := Call(p.name, SeenArgs(Args(p.args)));
      assert [seen] + SeenCalls(Calls(calls[1..])) == SeenCalls(Calls(calls));
      assert c.calls + [seen] + SeenCalls(Calls(calls[1..])) == c.calls + SeenCalls(Calls(calls));
    }
  }

  lemma CallRegroup(a: bytes, b: bytes, c: bytes, d: bytes, e: bytes, f: bytes, rest: bytes)
    ensures a + (b + (c + (d + (e + f)))) + rest == a + (b + (c + (d + (e + (f + rest)))))
  {
  }

  predicate AllOk(d: Document) {
    forall c :: c in Calls(d.calls) ==> CallOk(c)
  }

  lemma {:induction false} CallsIn(calls: seq<PrintedCall>)
    ensures |Calls(calls)| == |calls|
    ensures forall i :: 0 <= i < |calls| ==> Calls(calls)[i] == Call(calls[i].name, Args(calls[i].args))
  {
    if calls != [] { CallsIn(calls[1..]); }
  }

  /**
   * Reading back, forwards: with names and values the syntax can carry, any
   * spacing and spelling, any text without the opening marker in front, anything
   * behind, and any chunking, the parser is done with exactly the printed calls.
   */
  lemma PrintThenFeed(d: Document, before: bytes, after: bytes, chunks: seq<bytes>)
    requires WellSpaced(d) && AllOk(d)
    requires Concat(chunks) == before + (Print(d) + after) && FirstAt(Concat(chunks), START, |before|)
    ensures var s := FeedChunks(INIT, chunks).core;
      s.phase == Done && s.calls == SeenCalls(Calls(d.calls)) && s.error == [] && s.pos == |Print(d)|
  {
    hide START, CloseWord, Parse, PrintCalls, CallOk, Calls, SeenCalls, WellSpacedCall, AllBlank, FindSub, FeedChunks, Concat, TOOL_CALLS;
    LiteralsArePlain();
    StreamingIsBatch(chunks);
    var text := Concat(chunks);
    FindSubExact(text, START, |before|);
    Walk(text, 0, before, Print(d) + after);
    var raw := text[|before|..];
    var end := d.endGap + (CloseWord(TOOL_CALLS, d.close) + after);
    Regroup4(START, PrintCalls(d.calls), d.endGap, CloseWord(TOOL_CALLS, d.close), after);
    assert raw == START + (PrintCalls(d.calls) + end);
    assert raw[0..] == raw;
    Walk(raw, 0, START, PrintCalls(d.calls) + end);
    CallsIn(d.calls);
    forall p | p in d.calls ensures WellSpacedCall(p) && CallOk(Call(p.name, Args(p.args))) {
      var i :| 0 <= i < |d.calls| && d.calls[i] == p;
      assert Calls(d.calls)[i] in Calls(d.calls);
    }
    var e := ParseCalls(raw, BEGIN, d.calls, end);
    assert [] + SeenCalls(Calls(d.calls)) == SeenCalls(Calls(d.calls));
    ParseEnd(raw, e, d.endGap, d.close, after);
    ParseKeepsError(raw, BEGIN);
  }

  lemma Regroup4(a: bytes, b: bytes, c: bytes, d: bytes, rest: bytes)
    ensures a + (b + (c + d)) + rest == a + (b + (c + (d + rest)))
  {
  }

  lemma ParseEnd(raw: bytes, c: Core, gap: bytes, close: Spelling, rest: bytes)
    requires DsmlParse.Valid(raw, c) && c.phase == Structural && c.draft == EMPTY && AllBlank(gap) && ValidSpelling(close)
    requires raw[c.pos..] == gap + (CloseWord(TOOL_CALLS, close) + rest)
    ensures Parse(raw, c).phase == Done && Parse(raw, c).calls == c.calls && |raw| == Parse(raw, c).pos + |rest|
  {
    hide Step, CloseWord, TOOL_CALLS, INVOKE;
    NamesDiffer();
    StepCloses(raw, c, gap, TOOL_CALLS, close, rest);
  }

  lemma {:induction false} ParseKeepsError(raw: bytes, c: Core)
    requires DsmlParse.Valid(raw, c) && Parse(raw, c).phase != Failed
    ensures Parse(raw, c).error == c.error
    decreases |raw| - c.pos, Active(c)
  {
    hide CloseTag, FindClose, ParseAttr, OpenTagIs, FindByte, SkipBlanks;
    if Active(c) {
      match Step(raw, c)
      case Wait(d) =>
      case Go(d) => if Active(d) { ParseKeepsError(raw, d); }
    }
  }

  // ------------------------------------------------------------ the exact condition

  /** Everything a parse ever stores could have been printed. */
  ghost predicate Clean(c: Core) {
    && (forall k :: k in c.calls ==> CallOk(k))
    && (c.draft.name.Some? ==> NameOk(c.draft.name.value))
    && (forall a :: a in c.draft.args ==> ArgOk(a))
    && (c.paramName.Some? ==> NameOk(c.paramName.value))
  }

  lemma AttrOk(tag: bytes, name: bytes)
    requires |tag| > 0 && tag[|tag| - 1] == GT && GT !in tag[..|tag| - 1] && ParseAttr(tag, name).Some?
    ensures NameOk(ParseAttr(tag, name).value)
  {
    var pat := name + [0x3D, QUOTE];
    var k := FindSub(tag, pat).value;
    var rest := tag[k + |pat|..];
    var e := FindByte(rest, QUOTE).value;
    var from := k + |pat|;
    assert tag[from + e] == QUOTE;
    assert rest[..e] == tag[..|tag| - 1][from..from + e];
  }

  lemma ClosedValueOk(t: bytes)
    requires FindClose(t).Some?
    ensures ValueOk(t[..FindClose(t).value.0])
  {
    hide FindClose, CloseTag, PARAMETER;
    FindCloseSpec(t);
    LiteralsArePlain();
    var e := FindClose(t).value.0;
    if FindClose(t[..e]).Some? {
      FindCloseSpec(t[..e]);
      var k := FindClose(t[..e]).value.0;
      assert t[..e][k..] + t[e..] == t[k..];
      CloseTagStable(t[..e][k..], t[e..], PARAMETER);
    }
  }

  lemma OpenTagClean(c: Core, tag: bytes)
    requires Clean(c) && |tag| > 0 && tag[|tag| - 1] == GT && GT !in tag[..|tag| - 1]
    ensures Clean(OpenTag(c, tag))
  {
    hide ParseAttr, OpenTagIs, NameOk, CallOk, ArgOk;
    if ParseAttr(tag, NAME).Some? { AttrOk(tag, NAME); }
  }

  lemma PushClean(c: Core)
    requires Clean(c)
    ensures Clean(Push(c))
  {
    hide NameOk, ArgOk;
  }

  lemma StepClean(raw: bytes, c: Core)
    requires DsmlParse.Valid(raw, c) && Active(c) && Clean(c)
    ensures Clean(Step(raw, c).core)
  {
    hide CloseTag, FindClose, FindByte, SkipBlanks, NameOk, ValueOk, CallOk, Push, OpenTag;
    if c.phase == ParamValue {
      var t := raw[c.valueStart..];
      if FindClose(t).Some? {
        ClosedValueOk(t);
        var e := FindClose(t).value.0;
        assert raw[c.valueStart..c.valueStart + e] == t[..e];
      }
    } else {
      var p := SkipBlanks(raw, c.pos);
      var t := raw[p..];
      var at := c.(pos := p);
      PushClean(at);
      if FindByte(t, GT).Some? {
        var g := FindByte(t, GT).value;
        assert t[..g + 1][..g] == t[..g];
        OpenTagClean(at, t[..g + 1]);
      }
    }
  }

  lemma {:induction false} ParseClean(raw: bytes, c: Core)
    requires DsmlParse.Valid(raw, c) && Clean(c)
    ensures Clean(Parse(raw, c))
    decreases |raw| - c.pos, Active(c)
  {
    hide Step, Clean;
    if Active(c) {
      StepClean(raw, c);
      match Step(raw, c)
      case Wait(d) =>
      case Go(d) => if Active(d) { ParseClean(raw, d); }
    }
  }

  /** The calls of a printed document, fed to a fresh parser on its own, come back unchanged. */
  ghost predicate ReadsBack(d: Document) {
    Batch(Print(d)).phase == Done && Batch(Print(d)).calls == Calls(d.calls)
  }

  /** The guard a writer can check: names without quote, `>` and NUL, values without NUL
      and without a parameter close tag, and no string argument whose name ends in `string=`. */
  predicate Printable(d: Document) {
    AllOk(d) && forall c :: c in Calls(d.calls) ==> ShowsFlags(c)
  }

  predicate ShowsFlags(c: Call) {
    forall a :: a in c.args ==> !(a.isString && EndsInStringEq(a.name))
  }

  lemma SeenIsSame(calls: seq<Call>)
    ensures SeenCalls(calls) == calls <==> forall c :: c in calls ==> ShowsFlags(c)
  {
    hide EndsInStringEq;
    forall i | 0 <= i < |calls| ensures SeenCalls(calls)[i] == calls[i] <==> ShowsFlags(calls[i]) {
      SeenArgsIsSame(calls[i]);
    }
    if forall c :: c in calls ==> ShowsFlags(c) {
      forall i | 0 <= i < |calls| ensures SeenCalls(calls)[i] == calls[i] { assert calls[i] in calls; }
    }
  }

  lemma SeenArgsIsSame(c: Call)
    ensures SeenArgs(c.args) == c.args <==> ShowsFlags(c)
  {
    hide EndsInStringEq;
    if SeenArgs(c.args) == c.args {
      forall a | a in c.args ensures !(a.isString && EndsInStringEq(a.name)) {
        var j :| 0 <= j < |c.args| && c.args[j] == a;
        assert SeenArgs(c.args)[j] == Seen(a);
      }
    }
    if ShowsFlags(c) {
      forall j | 0 <= j < |c.args| ensures SeenArgs(c.args)[j] == c.args[j] { assert c.args[j] in c.args; }
    }
  }

  /** Round trip: a well-spaced document reads back exactly when it is printable. */
  lemma RoundTrip(d: Document)
    requires WellSpaced(d)
    ensures ReadsBack(d) <==> Printable(d)
  {
    hide START, Parse, PrintCalls, CloseWord, SeenCalls, Calls, WellSpaced, Clean, FindSub;
    var text := Print(d);
    LiteralsArePlain();
    assert text[0..] == text && START <= text;
    assert FirstAt(text, START, 0);
    FindSubExact(text, START, 0);
    if AllOk(d) {
      assert Concat([text]) == text by { assert text + [] == text; assert [text][1..] == []; }
      assert text == [] + (text + []);
      PrintThenFeed(d, [], [], [text]);
      StreamingIsBatch([text]);
      SeenIsSame(Calls(d.calls));
    }
    assert Clean(BEGIN) by { BeginClean(); }
    ParseClean(text, BEGIN);
    if ReadsBack(d) { CleanCalls(Batch(text)); }
  }

  lemma BeginClean()
    ensures Clean(BEGIN)
  {
  }

  lemma CleanCalls(c: Core)
    requires Clean(c)
    ensures forall k :: k in c.calls ==> CallOk(k)
  {
  }
}
