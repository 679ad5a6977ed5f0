// The cursor loops that read a trace back (ds4_eval.c:3044-3214). A function gives
// each one's meaning on the text from the cursor to the end of the range; `text` in a
// method is the file up to that end.

module TraceScanner {
  import opened Bytes
  import opened TraceWriter

  const MINUS: byte := 0x2D
  const PLUS: byte := 0x2B
  const BYTES: bytes := Ascii("bytes=")
  const OUTPUT_BEGIN: bytes := Ascii("MODEL_OUTPUT_BEGIN")
  const OUTPUT_END: bytes := Ascii("MODEL_OUTPUT_END")
  const LEGACY_END: bytes := [LF] + OUTPUT_END
  const LABEL_MAX: nat := 96
  const ULL_MAX: nat := 0xFFFF_FFFF_FFFF_FFFF

  /** Where the line at the start of `s` ends: its line feed, or the end of `s`. */
  function LineEnd(s: bytes): (e: nat)
    ensures e <= |s| && (e < |s| ==> s[e] == LF) && LF !in s[..e]
  {
    if s == [] || s[0] == LF then 0
    else
      var e := 1 + LineEnd(s[1..]);
      assert s[..e] == [s[0]] + s[1..][..e - 1];
      e
  }

  function NextLine(s: bytes): (n: nat)
    ensures n <= |s| && (s != [] ==> n > 0)
  {
    if LineEnd(s) < |s| then LineEnd(s) + 1 else |s|
  }

  function SpaceRun(s: bytes): (n: nat)
    ensures n <= |s|
  {
    if s != [] && IsSpace(s[0]) then 1 + SpaceRun(s[1..]) else 0
  }

  function DigitRun(s: bytes): (n: nat)
    ensures n <= |s| && forall i :: 0 <= i < n ==> IsDigit(s[i])
  {
    if s != [] && IsDigit(s[0]) then 1 + DigitRun(s[1..]) else 0
  }

  function Value(digits: bytes): nat
    requires forall i :: 0 <= i < |digits| ==> IsDigit(digits[i])
  {
    if digits == [] then 0
    else
      var last := digits[|digits| - 1];
      assert IsDigit(last);
      10 * Value(digits[..|digits| - 1]) + (last as nat - ZERO as nat)
  }

  /** A number read by `strtoull` in base 10 and where reading stopped. */
  datatype Number = Number(value: nat, next: nat)

  function StrToULL(s: bytes): (r: Option<Number>)
    ensures r.Some? ==> r.value.next <= |s|
  {
    var i := SpaceRun(s);
    var signed := i < |s| && (s[i] == MINUS || s[i] == PLUS);
    var j := if signed then i + 1 else i;
    var n := DigitRun(s[j..]);
    if n == 0 then None
    else
      var v := Value(s[j..][..n]);
      Some(Number(if v > ULL_MAX then ULL_MAX else if signed && s[i] == MINUS && v != 0 then ULL_MAX + 1 - v else v, j + n))
  }

  function Shift(r: Option<nat>, from: nat): Option<nat> {
    match r case None => None case Some(k) => Some(from + k)
  }

  /** Where a block of `declared` bytes at `content` must be followed by its end marker. */
  function MarkerAt(s: bytes, content: nat, declared: nat): (m: nat)
    requires content + declared <= |s|
    ensures content + declared <= m <= |s|
  {
    var m := content + declared;
    if m < |s| && s[m] == LF then m + 1 else m
  }

  /** The end of `trace_skip_counted_block`: where the line after the end marker starts. */
  function Past(s: bytes, m: nat, marker: bytes): (r: Option<nat>)
    requires m <= |s|
    ensures r.Some? ==> m + |marker| <= r.value <= |s|
  {
    if marker <= s[m..] then Some(m + |marker| + NextLine(s[m + |marker|..])) else None
  }

  /** The length of the counted block whose begin line starts `s` and has a name of `k` bytes. */
  function SkipNamed(s: bytes, k: nat): (r: Option<nat>)
    requires 0 < k && k + |BEGIN| <= LineEnd(s)
    ensures r.Some? ==> 0 < r.value <= |s|
  {
    match StrToULL(s[k + |BEGIN|..])
    case None => None
    case Some(number) =>
      var content := NextLine(s);
      if k + |BEGIN| + number.next > LineEnd(s) || number.value > |s| - content then None
      else Past(s, MarkerAt(s, content, number.value), CText(s[..k]) + END)
  }

  /** The length of the counted block that starts with the line at the start of `s`. */
  function SkipBlock(s: bytes): (r: Option<nat>)
    ensures r.Some? ==> 0 < r.value <= |s|
  {
    match FindSub(s[..LineEnd(s)], BEGIN)
    case None => None
    case Some(k) => if k == 0 || k > LABEL_MAX then None else SkipNamed(s, k)
  }

  /** `trace_find_next_case`. */
  function FindCase(s: bytes): (r: Option<nat>)
    ensures r.Some? ==> r.value < |s|
    decreases |s|
  {
    if s == [] then None
    else match SkipBlock(s)
      case Some(n) => Shift(FindCase(s[n..]), n)
      case None =>
        if CASE <= s[..LineEnd(s)] then Some(0)
        else Shift(FindCase(s[NextLine(s)..]), NextLine(s))
  }

  /** `trace_find_block_begin`. */
  function FindBlock(s: bytes, name: bytes): (r: Option<nat>)
    ensures r.Some? ==> r.value < |s|
    decreases |s|
  {
    if s == [] then None
    else if name <= s[..LineEnd(s)] then Some(0)
    else match SkipBlock(s)
      case Some(n) => Shift(FindBlock(s[n..], name), n)
      case None => Shift(FindBlock(s[NextLine(s)..], name), NextLine(s))
  }

  /** `copy_span`: the span without trailing line ends, cut to a buffer of `size` bytes. */
  function TrimEnd(s: bytes): bytes {
    if s != [] && (s[|s| - 1] == CR || s[|s| - 1] == LF) then TrimEnd(s[..|s| - 1]) else s
  }

  function Span(s: bytes, size: nat): bytes
    requires size > 0
  {
    var t := TrimEnd(s);
    if |t| >= size then t[..size - 1] else t
  }

  /** `trace_get_line_field`: the rest of the first line that starts with the key. */
  function Field(s: bytes, key: bytes, size: nat): Option<bytes>
    requires size > 0
    decreases |s|
  {
    if s == [] then None
    else if key <= s[..LineEnd(s)] then Some(Span(s[|key|..LineEnd(s)], size))
    else Field(s[NextLine(s)..], key, size)
  }

  /** The first `length` bytes, if the end marker of the output follows them. */
  function Counted(s: bytes, length: nat): Option<bytes> {
    if length > |s| || !(OUTPUT_END <= s[MarkerAt(s, 0, length)..]) then None else Some(s[..length])
  }

  /** The text up to the end marker on a line of its own, as old traces have it. */
  function Delimited(s: bytes): Option<bytes> {
    match FindSub(s, LEGACY_END) case None => None case Some(n) => Some(s[..n])
  }

  /** The output in the block that starts `t`. */
  function OutputOf(t: bytes): Option<bytes> {
    var e := LineEnd(t);
    if e == |t| then None
    else match FindSub(t[..e], BYTES)
      case None => Delimited(t[e + 1..])
      case Some(k) =>
        match StrToULL(t[k + |BYTES|..])
        case None => None
        case Some(number) => if k + |BYTES| + number.next > e then None else Counted(t[e + 1..], number.value)
  }

  /** `trace_copy_model_output`. */
  function ModelOutput(s: bytes): Option<bytes> {
    match FindBlock(s, OUTPUT_BEGIN) case None => None case Some(b) => OutputOf(s[b..])
  }

  // ---------------------------------------------------------------- the loops

  lemma PatternsNotEmpty()
    ensures BEGIN != [] && BYTES != [] && LEGACY_END != []
  {
  }

  lemma DropDrop(s: bytes, i: nat, j: nat)
    requires i <= j <= |s|
    ensures s[i..][j - i..] == s[j..]
  {
  }

  lemma PrefixAt(text: bytes, i: nat, pattern: bytes)
    requires i <= |text|
    ensures pattern <= text[i..] <==> i + |pattern| <= |text| && text[i..i + |pattern|] == pattern
  {
    if i + |pattern| <= |text| {
      assert text[i..][..|pattern|] == text[i..i + |pattern|];
    }
  }

  lemma NothingLeft(name: bytes, size: nat)
    requires size > 0
    ensures FindCase([]).None? && FindBlock([], name).None? && Field([], name, size).None?
  {
  }

  /** One step of the case scan, in file positions. */
  lemma FindCaseStep(text: bytes, p: nat)
    requires p < |text|
    ensures var s := text[p..]; var q := p + NextLine(s);
      match SkipBlock(s)
      case Some(n) => Shift(FindCase(s), p) == Shift(FindCase(text[p + n..]), p + n)
      case None =>
        if CASE <= text[p..p + LineEnd(s)] then FindCase(s) == Some(0)
        else Shift(FindCase(s), p) == Shift(FindCase(text[q..]), q)
  {
    hide SkipBlock, LineEnd, NextLine, CASE;
    var s := text[p..];
    assert s[..LineEnd(s)] == text[p..p + LineEnd(s)];
    DropDrop(text, p, p + NextLine(s));
    if SkipBlock(s).Some? { DropDrop(text, p, p + SkipBlock(s).value); }
  }

  /** One step of the block scan, in file positions. */
  lemma FindBlockStep(text: bytes, p: nat, name: bytes)
    requires p < |text|
    ensures var s := text[p..]; var q := p + NextLine(s);
      if name <= text[p..p + LineEnd(s)] then FindBlock(s, name) == Some(0)
      else match SkipBlock(s)
        case Some(n) => Shift(FindBlock(s, name), p) == Shift(FindBlock(text[p + n..], name), p + n)
        case None => Shift(FindBlock(s, name), p) == Shift(FindBlock(text[q..], name), q)
  {
    hide SkipBlock, LineEnd, NextLine;
    var s := text[p..];
    var line := s[..LineEnd(s)];
    assert line == text[p..p + LineEnd(s)];
    if !(name <= line) {
      var n := if SkipBlock(s).Some? then SkipBlock(s).value else NextLine(s);
      DropDrop(text, p, p + n);
      assert FindBlock(s, name) == Shift(FindBlock(s[n..], name), n);
    }
  }

  /** One step of the field scan, in file positions. */
  lemma FieldStep(text: bytes, p: nat, key: bytes, size: nat)
    requires p < |text| && size > 0
    ensures var s := text[p..]; var e := p + LineEnd(s);
      Field(s, key, size) == if key <= text[p..e] then Some(Span(text[p + |key|..e], size))
                             else Field(text[p + NextLine(s)..], key, size)
  {
    hide LineEnd, NextLine, Span;
    var s := text[p..];
    var e := LineEnd(s);
    assert s[..e] == text[p..p + e];
    DropDrop(text, p, p + NextLine(s));
    if key <= text[p..p + e] { assert s[|key|..e] == text[p + |key|..p + e]; }
  }

  /** `memchr` for a line feed, or the end of the text. */
  method FindLineEnd(text: bytes, start: nat) returns (e: nat)
    requires start <= |text|
    ensures e == start + LineEnd(text[start..])
  {
    e := start;
    while e < |text| && text[e] != LF
      invariant start <= e <= |text| && e + LineEnd(text[e..]) == start + LineEnd(text[start..])
    {
      DropDrop(text, e, e + 1);
      e := e + 1;
    }
  }

  /** `bounded_strstr`. */
  method BoundedFind(text: bytes, start: nat, end: nat, needle: bytes) returns (r: Option<nat>)
    requires start <= end <= |text| && needle != []
    ensures r == Shift(FindSub(text[start..end], needle), start)
  {
    hide FindSub;
    var p := start;
    while p + |needle| <= end
      invariant start <= p <= end
      invariant Shift(FindSub(text[p..end], needle), p) == Shift(FindSub(text[start..end], needle), start)
    {
      assert text[p..end][..|needle|] == text[p..p + |needle|];
      if text[p..p + |needle|] == needle {
        FindSubHere(text[p..end], needle);
        return Some(p);
      }
      FindSubMoves(text[p..end], needle);
      assert text[p..end][1..] == text[p + 1..end];
      p := p + 1;
    }
    FindSubShort(text[p..end], needle);
    return None;
  }

  lemma FindSubHere(s: bytes, needle: bytes)
    requires needle <= s
    ensures FindSub(s, needle) == Some(0)
  {
  }

  lemma FindSubMoves(s: bytes, needle: bytes)
    requires s != [] && !(needle <= s)
    ensures FindSub(s, needle) == Shift(FindSub(s[1..], needle), 1)
  {
  }

  lemma FindSubShort(s: bytes, needle: bytes)
    requires |s| < |needle|
    ensures FindSub(s, needle).None?
  {
    if s != [] { FindSubShort(s[1..], needle); }
  }

  method SkipMarker(text: bytes, m: nat, marker: bytes) returns (r: Option<nat>)
    requires m <= |text|
    ensures r == Past(text, m, marker)
  {
    hide LineEnd;
    PrefixAt(text, m, marker);
    if |text| - m < |marker| || text[m..m + |marker|] != marker { return None; }
    var after := m + |marker|;
    var afterLine := FindLineEnd(text, after);
    return Some(if afterLine < |text| then afterLine + 1 else |text|);
  }

  lemma PastFrom(text: bytes, line: nat, m: nat, marker: bytes)
    requires line <= m <= |text|
    ensures Past(text, m, marker) == Shift(Past(text[line..], m - line, marker), line)
  {
    hide LineEnd, NextLine;
    DropDrop(text, line, m);
    if marker <= text[m..] { DropDrop(text, line, m + |marker|); }
  }

  method SkipNamedBlock(text: bytes, line: nat, lineEnd: nat, begin: nat) returns (r: Option<nat>)
    requires line < begin && begin + |BEGIN| <= lineEnd <= |text| && lineEnd == line + LineEnd(text[line..])
    ensures r == Shift(SkipNamed(text[line..], begin - line), line)
  {
    hide FindSub, CText, StrToULL, LineEnd, BEGIN, END, Past;
    ghost var s := text[line..];
    var marker := CText(text[line..begin]) + END;
    assert text[line..begin] == s[..begin - line];
    var digits := begin + |BEGIN|;
    DropDrop(text, line, digits);
    var number := StrToULL(text[digits..]);
    if number.None? || digits + number.value.next > lineEnd { return None; }
    var content := if lineEnd < |text| then lineEnd + 1 else |text|;
    if number.value.value > |text| - content { return None; }
    var m := content + number.value.value;
    if m < |text| && text[m] == LF { m := m + 1; }
    assert m == line + MarkerAt(s, content - line, number.value.value);
    r := SkipMarker(text, m, marker);
    PastFrom(text, line, m, marker);
  }

  /** `trace_skip_counted_block`, on the line that starts at `line`. */
  method SkipCountedBlock(text: bytes, line: nat, lineEnd: nat) returns (r: Option<nat>)
    requires line <= |text| && lineEnd == line + LineEnd(text[line..])
    ensures r == Shift(SkipBlock(text[line..]), line)
  {
    hide FindSub, SkipNamed, LineEnd, BEGIN;
    PatternsNotEmpty();
    var begin := BoundedFind(text, line, lineEnd, BEGIN);
    assert text[line..lineEnd] == text[line..][..lineEnd - line];
    if begin.None? || begin.value == line || begin.value - line > LABEL_MAX { return None; }
    r := SkipNamedBlock(text, line, lineEnd, begin.value);
  }

  method FindNextCase(text: bytes, start: nat) returns (r: Option<nat>)
    requires start <= |text|
    ensures r == Shift(FindCase(text[start..]), start)
  {
    hide SkipBlock, LineEnd, CASE, FindCase;
    NothingLeft([], 1);
    var p := start;
    while p < |text|
      invariant start <= p <= |text|
      invariant Shift(FindCase(text[p..]), p) == Shift(FindCase(text[start..]), start)
    {
      FindCaseStep(text, p);
      var lineEnd := FindLineEnd(text, p);
      var skip := SkipCountedBlock(text, p, lineEnd);
      if skip.Some? && skip.value > p {
        p := skip.value;
        continue;
      }
      if CASE <= text[p..lineEnd] { return Some(p); }
      p := if lineEnd < |text| then lineEnd + 1 else |text|;
    }
    return None;
  }

  method FindBlockBegin(text: bytes, start: nat, name: bytes) returns (r: Option<nat>)
    requires start <= |text|
    ensures r == Shift(FindBlock(text[start..], name), start)
  {
    hide SkipBlock, LineEnd, FindBlock;
    NothingLeft(name, 1);
    var p := start;
    while p < |text|
      invariant start <= p <= |text|
      invariant Shift(FindBlock(text[p..], name), p) == Shift(FindBlock(text[start..], name), start)
    {
      FindBlockStep(text, p, name);
      var lineEnd := FindLineEnd(text, p);
      if name <= text[p..lineEnd] { return Some(p); }
      var skip := SkipCountedBlock(text, p, lineEnd);
      if skip.Some? && skip.value > p {
        p := skip.value;
        continue;
      }
      p := if lineEnd < |text| then lineEnd + 1 else |text|;
    }
    return None;
  }

  method CopySpan(text: bytes, start: nat, end: nat, size: nat) returns (r: bytes)
    requires start <= end <= |text| && size > 0
    ensures r == Span(text[start..end], size)
  {
    var e := end;
    while e > start && (text[e - 1] == CR || text[e - 1] == LF)
      invariant start <= e <= end && TrimEnd(text[start..e]) == TrimEnd(text[start..end])
    {
      assert text[start..e][..e - start - 1] == text[start..e - 1];
      e := e - 1;
    }
    var n := e - start;
    if n >= size { n := size - 1; }
    r := text[start..start + n];
    assert r == text[start..e][..n];
  }

  method GetLineField(text: bytes, start: nat, key: bytes, size: nat) returns (r: Option<bytes>)
    requires start <= |text| && size > 0
    ensures r == Field(text[start..], key, size)
  {
    hide LineEnd, Span, Field;
    NothingLeft(key, size);
    var p := start;
    while p < |text|
      invariant start <= p <= |text|
      invariant Field(text[p..], key, size) == Field(text[start..], key, size)
    {
      FieldStep(text, p, key, size);
      var lineEnd := FindLineEnd(text, p);
      if key <= text[p..lineEnd] {
        var value := CopySpan(text, p + |key|, lineEnd, size);
        return Some(value);
      }
      p := if lineEnd < |text| then lineEnd + 1 else |text|;
    }
    assert text[p..] == [];
    return None;
  }

  method CopyCounted(text: bytes, content: nat, length: nat) returns (r: Option<bytes>)
    requires content <= |text|
    ensures r == Counted(text[content..], length)
  {
    hide OUTPUT_END;
    if length > |text| - content { return None; }
    var m := content + length;
    if m < |text| && text[m] == LF { m := m + 1; }
    DropDrop(text, content, m);
    PrefixAt(text, m, OUTPUT_END);
    if |text| - m < |OUTPUT_END| || text[m..m + |OUTPUT_END|] != OUTPUT_END { return None; }
    assert text[content..][..length] == text[content..content + length];
    return Some(text[content..content + length]);
  }

  method CopyDelimited(text: bytes, content: nat) returns (r: Option<bytes>)
    requires content <= |text|
    ensures r == Delimited(text[content..])
  {
    hide LEGACY_END, FindSub;
    PatternsNotEmpty();
    assert text[content..|text|] == text[content..];
    var finish := BoundedFind(text, content, |text|, LEGACY_END);
    if finish.None? { return None; }
    assert text[content..][..finish.value - content] == text[content..finish.value];
    return Some(text[content..finish.value]);
  }

  method CopyOutputOf(text: bytes, begin: nat) returns (r: Option<bytes>)
    requires begin <= |text|
    ensures r == OutputOf(text[begin..])
  {
    hide LineEnd, FindSub, StrToULL, Counted, Delimited, BYTES;
    PatternsNotEmpty();
    var lineEnd := FindLineEnd(text, begin);
    if lineEnd == |text| { return None; }
    var content := lineEnd + 1;
    DropDrop(text, begin, content);
    assert text[begin..lineEnd] == text[begin..][..lineEnd - begin];
    var at := BoundedFind(text, begin, lineEnd, BYTES);
    if at.None? {
      r := CopyDelimited(text, content);
      return;
    }
    var digits := at.value + |BYTES|;
    DropDrop(text, begin, digits);
    var number := StrToULL(text[digits..]);
    if number.None? || digits + number.value.next > lineEnd { return None; }
    r := CopyCounted(text, content, number.value.value);
  }

  method CopyModelOutput(text: bytes, start: nat) returns (r: Option<bytes>)
    requires start <= |text|
    ensures r == ModelOutput(text[start..])
  {
    hide FindBlock, OutputOf, OUTPUT_BEGIN;
    var begin := FindBlockBegin(text, start, OUTPUT_BEGIN);
    if begin.None? { return None; }
    DropDrop(text, start, begin.value);
    r := CopyOutputOf(text, begin.value);
  }

  // ---------------------------------------------------------------- copied spans and old traces

  lemma {:induction false} TrimEndIsExact(s: bytes)
    ensures var t := TrimEnd(s);
      && t <= s && (t != [] ==> t[|t| - 1] != CR && t[|t| - 1] != LF)
      && forall i :: |t| <= i < |s| ==> s[i] == CR || s[i] == LF
  {
    if s != [] { TrimEndIsExact(s[..|s| - 1]); }
  }

  /** What is copied of a span, exactly: the longest beginning that fits its buffer with a NUL, without line ends behind it. */
  lemma SpanIsExact(s: bytes, size: nat, n: nat)
    requires size > 0 && n <= |s| && (n > 0 ==> s[n - 1] != CR && s[n - 1] != LF)
    requires forall i :: n <= i < |s| ==> s[i] == CR || s[i] == LF
    ensures Span(s, size) == s[..if n < size then n else size - 1]
  {
    hide TrimEnd;
    TrimEndIsExact(s);
    var t := TrimEnd(s);
    if |t| < n { assert false; }
    assert |t| == n;
    assert t == s[..n];
  }

  /** An output without a byte count ends at the first end marker that starts a line, and without one it cannot be read. */
  lemma OldOutputIsRead(line: bytes, text: bytes)
    requires LF !in line && FindSub(line, BYTES).None?
    ensures OutputOf(line) == None
    ensures OutputOf(line + [LF] + text).Some? <==> exists n: nat :: FirstAt(text, LEGACY_END, n)
    ensures forall n: nat :: FirstAt(text, LEGACY_END, n) ==> OutputOf(line + [LF] + text) == Some(text[..n])
  {
    hide LineEnd, FindSub, StrToULL, LEGACY_END, BYTES, Counted;
    var t := line + [LF] + text;
    LineEndsAt(line, text);
    assert t[..|line|] == line && t[|line| + 1..] == text;
    forall n: nat ensures FirstAt(text, LEGACY_END, n) <==> FindSub(text, LEGACY_END) == Some(n) {
      FindSubExact(text, LEGACY_END, n);
    }
    if FindSub(text, LEGACY_END).Some? { assert FirstAt(text, LEGACY_END, FindSub(text, LEGACY_END).value); }
  }

  lemma {:induction false} LineEndsAt(line: bytes, text: bytes)
    requires LF !in line
    ensures LineEnd(line) == |line| && LineEnd(line + [LF] + text) == |line|
  {
    if line != [] {
      assert (line + [LF] + text)[1..] == line[1..] + [LF] + text;
      assert forall c :: c in line[1..] ==> c in line;
      LineEndsAt(line[1..], text);
    }
  }
}
