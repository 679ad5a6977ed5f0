// Reading back what was written: numbers, lines and counted blocks, whatever text a
// block holds (ds4_eval.c:2505-2516, 3064-3214).

module TraceRoundTrip {
  import opened Bytes
  import opened TraceWriter
  import opened TraceScanner

  // ---------------------------------------------------------------- numbers

  lemma {:induction false} DecimalValue(n: nat)
    ensures Value(Decimal(n)) == n
  {
    var d := Decimal(n);
    var front := if n < 10 then [] else Decimal(n / 10);
    assert d[..|d| - 1] == front;
    if n >= 10 { DecimalValue(n / 10); }
  }

  lemma {:induction false} DigitRunStops(digits: bytes, rest: bytes)
    requires forall i :: 0 <= i < |digits| ==> IsDigit(digits[i])
    requires rest == [] || !IsDigit(rest[0])
    ensures DigitRun(digits + rest) == |digits|
  {
    if digits == [] {
      assert digits + rest == rest;
    } else {
      assert (digits + rest)[1..] == digits[1..] + rest;
      DigitRunStops(digits[1..], rest);
    }
  }

  /** A printed number is read back, up to the first byte after it. */
  lemma PrintedNumber(n: nat, rest: bytes)
    requires n <= ULL_MAX && (rest == [] || !IsDigit(rest[0]))
    ensures StrToULL(Decimal(n) + rest) == Some(Number(n, |Decimal(n)|))
  {
    hide Decimal, DigitRun;
    var s := Decimal(n) + rest;
    assert IsDigit(s[0]) by { assert IsDigit(Decimal(n)[0]); }
    assert SpaceRun(s) == 0;
    assert s[0..] == s;
    DigitRunStops(Decimal(n), rest);
    assert s[..|Decimal(n)|] == Decimal(n);
    DecimalValue(n);
  }

  // ---------------------------------------------------------------- lines

  lemma {:induction false} LineEndIs(l: bytes, rest: bytes)
    requires LF !in l
    ensures LineEnd(l + [LF] + rest) == |l|
  {
    var s := l + [LF] + rest;
    if l != [] {
      assert s[1..] == l[1..] + [LF] + rest;
      assert forall i :: 0 <= i < |l[1..]| ==> l[1..][i] == l[i + 1];
      LineEndIs(l[1..], rest);
      assert l[0] in l;
    }
  }

  lemma FirstLine(l: bytes, rest: bytes)
    requires LF !in l
    ensures var s := l + [LF] + rest;
      LineEnd(s) == |l| && s[..|l|] == l && NextLine(s) == |l| + 1 && s[|l| + 1..] == rest
  {
    LineEndIs(l, rest);
  }

  /** A metadata line that cannot be taken for the begin line of a block. */
  ghost predicate CleanLine(l: bytes) {
    LF !in l && FindSub(l, BEGIN).None?
  }

  lemma CleanLineHasNoLF(l: bytes)
    requires CleanLine(l)
    ensures LF !in l
  {
  }

  lemma CleanLineIsNoBlock(l: bytes, rest: bytes)
    requires CleanLine(l)
    ensures SkipBlock(l + [LF] + rest).None?
  {
    hide BEGIN, LineEnd, FindSub, SkipNamed;
    FirstLine(l, rest);
  }

  // ---------------------------------------------------------------- lines with line feeds in them

  /** The lines that a line comes out as when its text holds line feeds. */
  function Broken(l: bytes): (ds: seq<bytes>)
    ensures |ds| > 0
  {
    if l == [] then [[]]
    else
      var ds := Broken(l[1..]);
      if l[0] == LF then [[]] + ds else [[l[0]] + ds[0]] + ds[1..]
  }

  function BrokenLines(ls: seq<bytes>): seq<bytes> {
    if ls == [] then [] else Broken(ls[0]) + BrokenLines(ls[1..])
  }

  lemma RenderCons(l: bytes, ls: seq<bytes>)
    ensures Render(Lines([l] + ls)) == l + [LF] + Render(Lines(ls))
  {
    assert Lines([l] + ls)[1..] == Lines(ls);
  }

  lemma RenderMore(a: seq<bytes>, b: seq<bytes>)
    ensures Render(Lines(a + b)) == Render(Lines(a)) + Render(Lines(b))
  {
    assert Lines(a + b) == Lines(a) + Lines(b);
    RenderConcat(Lines(a), Lines(b));
  }

  /** Breaking a line at its line feeds does not change what is written. */
  lemma {:induction false} BreakKeepsText(l: bytes)
    ensures Render(Lines(Broken(l))) == l + [LF]
  {
    hide Render, Lines;
    if l == [] {
      RenderLines([[]]);
    } else {
      var ds := Broken(l[1..]);
      BreakKeepsText(l[1..]);
      assert l == [l[0]] + l[1..];
      if l[0] == LF {
        RenderCons([], ds);
        assert [] + [LF] + (l[1..] + [LF]) == l + [LF];
      } else {
        assert ds == [ds[0]] + ds[1..];
        RenderCons(ds[0], ds[1..]);
        RenderCons([l[0]] + ds[0], ds[1..]);
        var more := Render(Lines(ds[1..]));
        assert [l[0]] + ds[0] + [LF] + more == [l[0]] + (ds[0] + [LF] + more);
      }
    }
  }

  lemma RenderLines(ls: seq<bytes>)
    ensures ls == [] ==> Render(Lines(ls)) == []
    ensures |ls| == 1 ==> Render(Lines(ls)) == ls[0] + [LF]
  {
    if |ls| == 1 {
      assert ls == [ls[0]] && Lines(ls) == [Line(ls[0])];
      RenderLine(ls[0]);
    }
  }

  lemma {:induction false} BreakLinesKeepsText(ls: seq<bytes>)
    ensures Render(Lines(BrokenLines(ls))) == Render(Lines(ls))
  {
    hide Render, Lines, Broken;
    if ls != [] {
      BreakKeepsText(ls[0]);
      BreakLinesKeepsText(ls[1..]);
      RenderMore(Broken(ls[0]), BrokenLines(ls[1..]));
      RenderCons(ls[0], ls[1..]);
      assert ls == [ls[0]] + ls[1..];
    }
  }

  lemma {:induction false} BrokenHasNoLF(l: bytes)
    ensures forall d :: d in Broken(l) ==> LF !in d
    ensures Broken(l)[0] <= l && (l != [] && l[0] != LF ==> Broken(l)[0] != [])
  {
    if l != [] {
      BrokenHasNoLF(l[1..]);
      var ds := Broken(l[1..]);
      assert ds[0] in ds;
      assert forall d :: d in Broken(l) && l[0] != LF ==> d == [l[0]] + ds[0] || d in ds;
    }
  }

  /** A text with a line feed is its first line and the lines of the rest; without one it is one line. */
  lemma {:induction false} BrokenAt(a: bytes, b: bytes)
    requires LF !in a
    ensures Broken(a) == [a] && Broken(a + [LF] + b) == [a] + Broken(b)
  {
    var l := a + [LF] + b;
    if a == [] {
      assert l[1..] == b;
    } else {
      assert a[0] in a && l[1..] == a[1..] + [LF] + b && l[0] == a[0];
      assert forall c :: c in a[1..] ==> c in a;
      BrokenAt(a[1..], b);
      assert [a[0]] + a[1..] == a;
      assert ([a[1..]] + Broken(b))[1..] == Broken(b);
    }
  }

  lemma {:induction false} InBroken(d: bytes, ls: seq<bytes>) returns (l: bytes)
    requires d in BrokenLines(ls)
    ensures l in ls && d in Broken(l)
  {
    hide Broken;
    if d in Broken(ls[0]) { l := ls[0]; } else { l := InBroken(d, ls[1..]); }
  }

  // ---------------------------------------------------------------- blocks

  /** A block name the scanner can recover from the begin line. */
  ghost predicate GoodName(name: bytes) {
    0 < |name| <= LABEL_MAX && LF !in name && NUL !in name && FindSub(name + BEGIN, BEGIN) == Some(|name|)
  }

  lemma NoLineFeeds(n: nat)
    ensures LF !in BEGIN && LF !in Decimal(n)
  {
    assert forall c :: IsDigit(c) ==> c != LF;
  }

  /** After the begin line, the block is its text and its end marker. */
  lemma AfterBegin(name: bytes, text: bytes, rest: bytes)
    requires LF !in name
    ensures var s := Written(Block(name, text)) + rest; var l := name + BEGIN + Decimal(|text|);
      s == l + [LF] + (Terminated(text) + (name + END + [LF]) + rest) && LF !in l
  {
    hide BEGIN, END, Decimal, Terminated;
    NoLineFeeds(|text|);
    var l := name + BEGIN + Decimal(|text|);
    Associative(l + [LF], Terminated(text) + (name + END + [LF]), rest);
  }

  /** Whatever the text holds, the end marker is where its byte count says. */
  lemma MarkerFound(text: bytes, marker: bytes, rest: bytes)
    requires marker != [] && marker[0] != LF
    ensures var s := Terminated(text) + marker + rest; var m := MarkerAt(s, 0, |text|);
      |text| <= |s| && s[..|text|] == text && s[m..] == marker + rest && m == |Terminated(text)|
  {
    var t := Terminated(text);
    var s := t + marker + rest;
    assert s[..|text|] == text;
    if text == [] || text[|text| - 1] == LF {
      assert s[|text|] == marker[0];
    } else {
      assert s[|text|] == t[|text|] == LF;
    }
    assert s[|t|..] == marker + rest;
  }

  lemma MarkerAtIn(s: bytes, content: nat, declared: nat)
    requires content + declared <= |s|
    ensures MarkerAt(s, content, declared) == content + MarkerAt(s[content..], 0, declared)
  {
  }

  lemma PastMarker(s: bytes, m: nat, marker: bytes, rest: bytes)
    requires m <= |s| && s[m..] == marker + [LF] + rest
    ensures Past(s, m, marker) == Some(|s| - |rest|)
  {
    assert marker <= s[m..] by { assert s[m..][..|marker|] == marker; }
    assert s[m + |marker|..] == s[m..][|marker|..] == [LF] + rest;
    FirstLine([], rest);
    assert [] + [LF] + rest == [LF] + rest;
  }

  lemma NumberAt(before: bytes, n: nat, rest: bytes)
    requires n <= ULL_MAX
    ensures StrToULL((before + Decimal(n) + [LF] + rest)[|before|..]) == Some(Number(n, |Decimal(n)|))
  {
    hide Decimal, StrToULL;
    assert (before + Decimal(n) + [LF] + rest)[|before|..] == Decimal(n) + ([LF] + rest);
    PrintedNumber(n, [LF] + rest);
  }

  lemma NamedBlockIsSkipped(name: bytes, text: bytes, rest: bytes)
    requires GoodName(name) && |text| <= ULL_MAX
    ensures var s := Written(Block(name, text)) + rest;
      |name| + |BEGIN| <= LineEnd(s) && SkipNamed(s, |name|) == Some(|Written(Block(name, text))|)
  {
    hide BEGIN, END, Decimal, Terminated, StrToULL, FindSub, LineEnd, NextLine, Past, CText, MarkerAt, Written;
    var s := Written(Block(name, text)) + rest;
    var l := name + BEGIN + Decimal(|text|);
    var marker := name + END;
    var tail := Terminated(text) + (marker + [LF]) + rest;
    AfterBegin(name, text, rest);
    FirstLine(l, tail);
    NumberAt(name + BEGIN, |text|, tail);
    assert s[..|name|] == name;
    CTextIs(name);
    MarkerFound(text, marker + [LF], rest);
    assert (marker + [LF])[0] == name[0];
    MarkerAtIn(s, |l| + 1, |text|);
    var m := MarkerAt(s, |l| + 1, |text|);
    DropDrop(s, |l| + 1, m);
    PastMarker(s, m, marker, rest);
  }

  /** The scanner skips exactly the block that was written, whatever text it holds. */
  lemma BlockIsSkipped(name: bytes, text: bytes, rest: bytes)
    requires GoodName(name) && |text| <= ULL_MAX
    ensures SkipBlock(Written(Block(name, text)) + rest) == Some(|Written(Block(name, text))|)
  {
    hide BEGIN, END, Decimal, Terminated, FindSub, LineEnd, NextLine, SkipNamed, Written;
    AfterBegin(name, text, rest);
    FirstLine(name + BEGIN + Decimal(|text|), Terminated(text) + (name + END + [LF]) + rest);
    FindSubStable(name + BEGIN, Decimal(|text|), BEGIN);
    NamedBlockIsSkipped(name, text, rest);
  }

  lemma OutputNames()
    ensures OUTPUT_END == MODEL_OUTPUT + END
    ensures |BEGIN| == 13 && OUTPUT_BEGIN == MODEL_OUTPUT + BEGIN[..6]
  {
  }

  lemma BytesInBegin()
    ensures |BEGIN| == 13 && BEGIN[7..] == BYTES && BYTES[0] == 0x62 && forall i :: 0 <= i < 7 ==> BEGIN[i] != 0x62
    ensures forall i :: 0 <= i < |MODEL_OUTPUT| ==> MODEL_OUTPUT[i] != 0x62
  {
  }

  lemma OutputLineHasBytes(digits: bytes)
    ensures FindSub(MODEL_OUTPUT + BEGIN + digits, BYTES) == Some(|MODEL_OUTPUT| + |BEGIN| - |BYTES|)
    ensures OUTPUT_BEGIN <= MODEL_OUTPUT + BEGIN + digits && MODEL_OUTPUT + END == OUTPUT_END
  {
    hide MODEL_OUTPUT, BEGIN, END, BYTES, OUTPUT_BEGIN, OUTPUT_END, FindSub;
    OutputNames();
    BytesInBegin();
    var l := MODEL_OUTPUT + BEGIN;
    var k := |MODEL_OUTPUT| + 7;
    assert l[k..] == BEGIN[7..];
    forall i | 0 <= i < k ensures !(BYTES <= l[i..]) {
      assert l[i..][0] == l[i] != BYTES[0];
    }
    FindSubExact(l, BYTES, k);
    FindSubStable(l, digits, BYTES);
    assert (l + digits)[..|OUTPUT_BEGIN|] == OUTPUT_BEGIN;
  }

  lemma LabelSizes()
    ensures |BYTES| <= |BEGIN|
    ensures MODEL_OUTPUT != [] && MODEL_OUTPUT[0] != LF && LF !in MODEL_OUTPUT
    ensures OUTPUT_BEGIN != [] && OUTPUT_BEGIN[0] == 0x4D && CASE != [] && CASE[0] == 0x3D
  {
  }

  lemma OutputIsCounted(text: bytes, rest: bytes)
    ensures Counted(Terminated(text) + (MODEL_OUTPUT + END + [LF]) + rest, |text|) == Some(text)
  {
    hide END, Terminated, MarkerAt, MODEL_OUTPUT, OUTPUT_END;
    LabelSizes();
    OutputNames();
    var marker := MODEL_OUTPUT + END;
    var tail := Terminated(text) + (marker + [LF]) + rest;
    assert (marker + [LF])[0] == MODEL_OUTPUT[0];
    MarkerFound(text, marker + [LF], rest);
    assert tail[MarkerAt(tail, 0, |text|)..][..|marker|] == marker;
  }

  /** `OutputOf` returns the text of a written block byte for byte. */
  lemma OutputIsCopied(text: bytes, rest: bytes)
    requires |text| <= ULL_MAX
    ensures OutputOf(Written(Block(MODEL_OUTPUT, text)) + rest) == Some(text)
  {
    hide BEGIN, END, BYTES, Decimal, Terminated, StrToULL, FindSub, LineEnd, NextLine, Written, Counted, Delimited, MODEL_OUTPUT;
    LabelSizes();
    var l := MODEL_OUTPUT + BEGIN + Decimal(|text|);
    var tail := Terminated(text) + (MODEL_OUTPUT + END + [LF]) + rest;
    AfterBegin(MODEL_OUTPUT, text, rest);
    FirstLine(l, tail);
    OutputLineHasBytes(Decimal(|text|));
    NumberAt(MODEL_OUTPUT + BEGIN, |text|, tail);
    OutputIsCounted(text, rest);
  }

  // ---------------------------------------------------------------- scanning over pieces

  ghost predicate Plain(p: Piece) {
    match p case Line(l) => CleanLine(l) case Block(name, text) => GoodName(name) && |text| <= ULL_MAX
  }

  /** The first line of a piece does not start with the pattern. */
  predicate Unlike(p: Piece, pattern: bytes) {
    match p case Line(l) => !(pattern <= l) case Block(name, text) => !(pattern <= name + BEGIN + Decimal(|text|))
  }

  lemma {:induction false} CaseScanPasses(ps: seq<Piece>, rest: bytes)
    requires forall p :: p in ps ==> Plain(p) && (p.Line? ==> Unlike(p, CASE))
    ensures FindCase(Render(ps) + rest) == Shift(FindCase(rest), |Render(ps)|)
  {
    hide FindCase, Plain, CASE, Written, BEGIN;
    if ps == [] {
      assert Render(ps) + rest == rest;
    } else {
      var tail := Render(ps[1..]) + rest;
      assert Render(ps) + rest == Written(ps[0]) + tail by { Associative(Written(ps[0]), Render(ps[1..]), rest); }
      assert ps[0] in ps;
      CaseScanStep(ps[0], tail);
      assert forall p :: p in ps[1..] ==> p in ps;
      CaseScanPasses(ps[1..], rest);
    }
  }

  lemma CaseScanStep(p: Piece, rest: bytes)
    requires Plain(p) && (p.Line? ==> Unlike(p, CASE))
    ensures FindCase(Written(p) + rest) == Shift(FindCase(rest), |Written(p)|)
  {
    hide SkipBlock, CASE, LineEnd, BEGIN, END, Decimal, Terminated, GoodName, CleanLine;
    var s := Written(p) + rest;
    assert s[|Written(p)|..] == rest;
    match p {
      case Line(l) =>
        assert LF !in l by { CleanLineHasNoLF(l); }
        CleanLineIsNoBlock(l, rest);
        FirstLine(l, rest);
      case Block(name, text) =>
        BlockIsSkipped(name, text, rest);
    }
  }

  lemma {:induction false} BlockScanPasses(ps: seq<Piece>, rest: bytes, name: bytes)
    requires forall p :: p in ps ==> Plain(p) && Unlike(p, name)
    ensures FindBlock(Render(ps) + rest, name) == Shift(FindBlock(rest, name), |Render(ps)|)
  {
    hide FindBlock, Plain, Unlike, Written, BEGIN;
    if ps == [] {
      assert Render(ps) + rest == rest;
    } else {
      var tail := Render(ps[1..]) + rest;
      assert Render(ps) + rest == Written(ps[0]) + tail by { Associative(Written(ps[0]), Render(ps[1..]), rest); }
      assert ps[0] in ps;
      BlockScanStep(ps[0], tail, name);
      assert forall p :: p in ps[1..] ==> p in ps;
      BlockScanPasses(ps[1..], rest, name);
    }
  }

  lemma BlockScanStep(p: Piece, rest: bytes, name: bytes)
    requires Plain(p) && Unlike(p, name)
    ensures FindBlock(Written(p) + rest, name) == Shift(FindBlock(rest, name), |Written(p)|)
  {
    hide SkipBlock, LineEnd, BEGIN, END, Decimal, Terminated, CleanLine;
    var s := Written(p) + rest;
    assert s[|Written(p)|..] == rest;
    match p {
      case Line(l) =>
        CleanLineHasNoLF(l);
        CleanLineIsNoBlock(l, rest);
        FirstLine(l, rest);
      case Block(own, text) =>
        BlockIsSkipped(own, text, rest);
        AfterBegin(own, text, rest);
        FirstLine(own + BEGIN + Decimal(|text|), Terminated(text) + (own + END + [LF]) + rest);
    }
  }

  lemma {:induction false} FieldScanPasses(ls: seq<bytes>, rest: bytes, key: bytes, size: nat)
    requires size > 0 && forall l :: l in ls ==> LF !in l && !(key <= l)
    ensures Field(Render(Lines(ls)) + rest, key, size) == Field(rest, key, size)
  {
    hide LineEnd, Span;
    if ls == [] {
      assert Render(Lines(ls)) + rest == rest;
    } else {
      assert Lines(ls)[1..] == Lines(ls[1..]);
      var tail := Render(Lines(ls[1..])) + rest;
      assert Render(Lines(ls)) + rest == ls[0] + [LF] + tail by {
        Associative(ls[0] + [LF], Render(Lines(ls[1..])), rest);
      }
      assert ls[0] in ls;
      FirstLine(ls[0], tail);
      assert forall l :: l in ls[1..] ==> l in ls;
      FieldScanPasses(ls[1..], rest, key, size);
    }
  }

  lemma FieldIsRead(key: bytes, value: bytes, rest: bytes, size: nat)
    requires size > 0 && LF !in key && LF !in value
    ensures Field(key + value + [LF] + rest, key, size) == Some(Span(value, size))
  {
    hide LineEnd, Span;
    var l := key + value;
    FirstLine(l, rest);
    assert (l + [LF] + rest)[|key|..|l|] == value;
  }
}
