// What an edit reports about line numbers (ds4_agent.c:5510-5528, 5576-5611,
// 6240-6272), and exactly when the report is right.

module LineShift {
  import opened Bytes
  import opened TextLines

  datatype Span = Span(start: nat, contentEnd: nat, end: nat)

  function Spans(ls: seq<Line>, at: nat): seq<Span> {
    if ls == [] then []
    else [Span(at, at + |ls[0].content|, at + |Text(ls[0])|)] + Spans(ls[1..], at + |Text(ls[0])|)
  }

  /** The inner loops of `agent_split_lines`: where the text and the terminator of a line end. */
  method LineBounds(data: bytes, start: nat) returns (contentEnd: nat, end: nat)
    requires start < |data|
    ensures start <= contentEnd <= end <= |data|
    ensures FirstLine(data[start..]) == Line(data[start..contentEnd], data[contentEnd..end])
  {
    ghost var rest := data[start..];
    var pos := start;
    while pos < |data| && data[pos] != LF && data[pos] != CR
      invariant start <= pos <= |data|
      invariant forall i :: start <= i < pos ==> !IsBreak(data[i])
    {
      pos := pos + 1;
    }
    contentEnd := pos;
    assert forall i :: 0 <= i < contentEnd - start ==> rest[i] == data[start + i];
    ContentLenIs(rest, contentEnd - start);
    assert rest[contentEnd - start..] == data[contentEnd..];
    if pos < |data| {
      if data[pos] == CR && pos + 1 < |data| && data[pos + 1] == LF { pos := pos + 2; } else { pos := pos + 1; }
    }
    end := pos;
    assert TermLen(data[contentEnd..]) == end - contentEnd;
    assert rest[..contentEnd - start] == data[start..contentEnd];
    assert rest[contentEnd - start..end - start] == data[contentEnd..end];
  }

  /** `agent_split_lines`: the spans of the lines, one after the other. */
  method SplitLines(data: bytes) returns (spans: seq<Span>)
    ensures spans == Spans(Lines(data), 0)
  {
    hide FirstLine, Spans, Lines;
    spans := [];
    var pos := 0;
    assert data[0..] == data;
    while pos < |data|
      invariant 0 <= pos <= |data|
      invariant spans + Spans(Lines(data[pos..]), pos) == Spans(Lines(data), 0)
    {
      var contentEnd, end := LineBounds(data, pos);
      NextSpan(data, pos, contentEnd, end);
      ghost var all := Spans(Lines(data[end..]), end);
      assert spans + ([Span(pos, contentEnd, end)] + all) == spans + [Span(pos, contentEnd, end)] + all;
      spans := spans + [Span(pos, contentEnd, end)];
      pos := end;
    }
    NoSpans(data[pos..], pos);
  }

  lemma NextSpan(data: bytes, pos: nat, contentEnd: nat, end: nat)
    requires pos <= contentEnd <= end <= |data| && pos < |data|
    requires FirstLine(data[pos..]) == Line(data[pos..contentEnd], data[contentEnd..end])
    ensures pos < end
    ensures Spans(Lines(data[pos..]), pos) == [Span(pos, contentEnd, end)] + Spans(Lines(data[end..]), end)
  {
    hide FirstLine;
    FirstLineOk(data[pos..]);
    assert data[pos..][end - pos..] == data[end..];
    SpansCons(FirstLine(data[pos..]), Lines(data[end..]), pos);
    assert Lines(data[pos..]) == [FirstLine(data[pos..])] + Lines(data[end..]);
  }

  lemma NoSpans(s: bytes, at: nat)
    ensures s == [] ==> Spans(Lines(s), at) == []
  {
  }

  lemma SpansCons(l: Line, ls: seq<Line>, at: nat)
    ensures Spans([l] + ls, at) == [Span(at, at + |l.content|, at + |Text(l)|)] + Spans(ls, at + |Text(l)|)
  {
    assert ([l] + ls)[1..] == ls;
  }

  /** Index of the line that holds byte `offset`; the number of lines if none does. */
  function LineIndex(ls: seq<Line>, offset: nat): (i: nat)
    ensures i <= |ls|
  {
    if ls == [] || offset < |Text(ls[0])| then 0 else 1 + LineIndex(ls[1..], offset - |Text(ls[0])|)
  }

  /** `agent_line_for_offset`: its number, counting from 1; the last line for later bytes. */
  function LineFor(ls: seq<Line>, offset: nat): nat {
    if ls == [] then 1 else if LineIndex(ls, offset) < |ls| then LineIndex(ls, offset) + 1 else |ls|
  }

  lemma {:induction false} SpanEnds(ls: seq<Line>, at: nat, i: nat)
    requires i < |ls|
    ensures |Spans(ls, at)| == |ls|
    ensures Spans(ls, at)[i].end == at + |Join(ls[..i + 1])|
    ensures Spans(ls, at)[i].start == at + |Join(ls[..i])|
  {
    var rest := Spans(ls[1..], at + |Text(ls[0])|);
    assert ls[..i + 1] == [ls[0]] + ls[1..][..i];
    JoinCons(ls[0], ls[1..][..i]);
    if |ls| > 1 { SpanEnds(ls[1..], at + |Text(ls[0])|, if i > 0 then i - 1 else 0); }
    if i > 0 {
      assert ls[..i] == [ls[0]] + ls[1..][..i - 1];
      JoinCons(ls[0], ls[1..][..i - 1]);
    }
  }

  lemma {:induction false} LineIndexIs(ls: seq<Line>, offset: nat)
    ensures var i := LineIndex(ls, offset);
      && |Join(ls[..i])| <= offset
      && (i < |ls| ==> offset < |Join(ls[..i + 1])|)
      && (offset < |Join(ls)| ==> i < |ls|)
  {
    hide Text;
    if ls != [] {
      var l := ls[0];
      var i := LineIndex(ls, offset);
      if offset >= |Text(l)| {
        LineIndexIs(ls[1..], offset - |Text(l)|);
        var j := i - 1;
        assert ls[..i] == [l] + ls[1..][..j];
        JoinCons(l, ls[1..][..j]);
        if i < |ls| {
          assert ls[..i + 1] == [l] + ls[1..][..j + 1];
          JoinCons(l, ls[1..][..j + 1]);
        }
      } else {
        assert ls[..1] == [l] + [];
        JoinCons(l, []);
      }
    }
  }

  /** The loop of `agent_line_for_offset`. */
  method LineForOffset(spans: seq<Span>, offset: nat, ghost ls: seq<Line>) returns (line: nat)
    requires spans == Spans(ls, 0)
    ensures line == LineFor(ls, offset)
  {
    hide Spans, LineIndex, Join;
    LineIndexIs(ls, offset);
    SpanCount(ls, 0);
    ghost var index := LineIndex(ls, offset);
    if |spans| == 0 { return 1; }
    for i := 0 to |spans|
      invariant index >= i
    {
      SpanEnds(ls, 0, i);
      if i < index { JoinMonotone(ls, i + 1, index); }
      if offset < spans[i].end { return i + 1; }
    }
    return |spans|;
  }

  datatype Effect = Effect(startLine: nat, endLine: nat, delta: int)

  /** The last byte an edit touches. */
  function LastTouched(size: nat, offset: nat, removed: nat): nat
    requires size > 0
  {
    var last := if removed > 0 then offset + removed - 1 else offset;
    if last >= size then size - 1 else last
  }

  function LineEffect(old_: bytes, new_: bytes, offset: nat, removed: nat): Effect
    requires old_ != []
  {
    var ls := Lines(old_);
    Effect(LineFor(ls, offset), LineFor(ls, LastTouched(|old_|, offset, removed)), |Lines(new_)| - |ls|)
  }

  /** `agent_old_new_line_effect`. */
  method OldNewLineEffect(old_: bytes, new_: bytes, offset: nat, removed: nat) returns (effect: Option<Effect>)
    ensures effect == if old_ == [] then None else Some(LineEffect(old_, new_, offset, removed))
  {
    hide Lines, Spans, LineFor;
    var oldSpans := SplitLines(old_);
    var newSpans := SplitLines(new_);
    NoLines(old_);
    SpanCount(Lines(old_), 0);
    SpanCount(Lines(new_), 0);
    if |oldSpans| == 0 { return None; }
    var oldLast := offset;
    if removed > 0 { oldLast := offset + removed - 1; }
    if oldLast >= |old_| { oldLast := if |old_| > 0 then |old_| - 1 else 0; }
    var startLine := LineForOffset(oldSpans, offset, Lines(old_));
    var endLine := LineForOffset(oldSpans, oldLast, Lines(old_));
    return Some(Effect(startLine, endLine, |newSpans| - |oldSpans|));
  }

  lemma {:induction false} SpanCount(ls: seq<Line>, at: nat)
    ensures |Spans(ls, at)| == |ls|
  {
    if ls != [] { SpanCount(ls[1..], at + |Text(ls[0])|); }
  }

  // ---------------------------------------------------------------- the theorem

  function Splice(data: bytes, offset: nat, removed: nat, insert: bytes): bytes
    requires offset + removed <= |data|
  {
    data[..offset] + insert + data[offset + removed..]
  }

  /** Byte at which the line after the last touched one starts. */
  function NextLineStart(data: bytes, offset: nat, removed: nat): (e: nat)
    requires data != []
  {
    |Join(Lines(data)[..LineEffect(data, [], offset, removed).endLine])|
  }

  /** The new text in front of that line. */
  function TextBefore(data: bytes, offset: nat, removed: nat, insert: bytes): bytes
    requires data != [] && offset + removed <= NextLineStart(data, offset, removed) <= |data|
  {
    data[..offset] + insert + data[offset + removed..NextLineStart(data, offset, removed)]
  }

  lemma JoinTake(data: bytes, n: nat)
    requires n <= |Lines(data)|
    ensures var ls := Lines(data); var e := |Join(ls[..n])|;
      && e <= |data| && data[..e] == Join(ls[..n]) && data[e..] == Join(ls[n..])
      && Lines(data[..e]) == ls[..n] && Lines(data[e..]) == ls[n..]
  {
    hide Lines, Join;
    LinesSound(data);
    var ls := Lines(data);
    assert ls == ls[..n] + ls[n..];
    JoinConcat(ls[..n], ls[n..]);
    SliceWellFormed(ls, n);
    WellFormedIsLines(ls[..n]);
    WellFormedIsLines(ls[n..]);
  }

  lemma SliceWellFormed(ls: seq<Line>, n: nat)
    requires WellFormed(ls) && n <= |ls|
    ensures WellFormed(ls[..n]) && WellFormed(ls[n..])
  {
  }

  lemma JoinMonotone(ls: seq<Line>, i: nat, j: nat)
    requires i <= j <= |ls|
    ensures |Join(ls[..i])| <= |Join(ls[..j])|
  {
    assert ls[..j] == ls[..i] + ls[i..j];
    JoinConcat(ls[..i], ls[i..j]);
  }

  /** The touched lines lie where the report says, and the cut ends inside the last of them. */
  lemma TouchedLines(data: bytes, offset: nat, removed: nat)
    requires data != [] && offset + removed <= |data|
    ensures var ls := Lines(data); var eff := LineEffect(data, [], offset, removed);
      && 1 <= eff.startLine <= eff.endLine <= |ls|
      && |Join(ls[..eff.startLine - 1])| <= offset
      && offset + removed <= NextLineStart(data, offset, removed) <= |data|
  {
    hide Lines, Join;
    LinesSound(data);
    NoLines(data);
    var ls := Lines(data);
    var last := LastTouched(|data|, offset, removed);
    LineIndexIs(ls, offset);
    LineIndexIs(ls, last);
    var s, e := LineIndex(ls, offset), LineIndex(ls, last);
    JoinTake(data, e + 1);
    assert ls[..|ls|] == ls;
    if s < |ls| {
      JoinTake(data, s + 1);
      assert offset < |data| && offset <= last;
      if s > e { JoinMonotone(ls, e + 1, s); }
    } else {
      JoinMonotone(ls, |ls| - 1, |ls|);
      assert e == |ls| - 1 by {
        LastLineNotEmpty(ls);
        if e + 1 < |ls| { JoinMonotone(ls, e + 1, |ls| - 1); }
      }
    }
  }

  lemma LastLineNotEmpty(ls: seq<Line>)
    requires WellFormed(ls) && ls != []
    ensures |Join(ls[..|ls| - 1])| < |Join(ls)|
  {
    var n := |ls| - 1;
    assert ls == ls[..n] + [ls[n]];
    JoinConcat(ls[..n], [ls[n]]);
    JoinCons(ls[n], []);
  }

  /** Line `k`, counted from 1, holds byte `b`. */
  predicate HoldsByte(ls: seq<Line>, k: nat, b: nat) {
    1 <= k <= |ls| && |Join(ls[..k - 1])| <= b < |Join(ls[..k])|
  }

  /** Each byte is in one line. */
  lemma OneLineHolds(ls: seq<Line>, j: nat, k: nat, b: nat)
    requires HoldsByte(ls, j, b) && HoldsByte(ls, k, b)
    ensures j == k
  {
    if j < k { JoinMonotone(ls, j, k - 1); }
    if k < j { JoinMonotone(ls, k, j - 1); }
  }

  /**
   * The reported lines are exact: the first one holds the first byte touched and the last
   * one the last byte touched; an edit at the end of the file touches its last byte.
   */
  lemma TouchedExactly(data: bytes, new_: bytes, offset: nat, removed: nat, k: nat)
    requires data != [] && offset + removed <= |data|
    ensures var ls := Lines(data); var eff := LineEffect(data, new_, offset, removed);
      var first := if offset < |data| then offset else |data| - 1;
      var last := if removed > 0 then offset + removed - 1 else first;
      && (HoldsByte(ls, k, first) <==> k == eff.startLine) && (HoldsByte(ls, k, last) <==> k == eff.endLine)
      && eff.delta == |Lines(new_)| - |ls|
  {
    hide Lines, Join, LineIndex;
    var ls := Lines(data);
    LinesSound(data);
    NoLines(data);
    var first := if offset < |data| then offset else |data| - 1;
    var last := if removed > 0 then offset + removed - 1 else first;
    LineHolds(data, first);
    LineHolds(data, last);
    if offset == |data| { PastIsLast(data); }
    var eff := LineEffect(data, new_, offset, removed);
    if HoldsByte(ls, k, first) { OneLineHolds(ls, k, eff.startLine, first); }
    if HoldsByte(ls, k, last) { OneLineHolds(ls, k, eff.endLine, last); }
  }

  lemma LineHolds(data: bytes, b: nat)
    requires b < |data|
    ensures HoldsByte(Lines(data), LineFor(Lines(data), b), b)
  {
    hide Lines, Join, LineIndex;
    LinesSound(data);
    LineIndexIs(Lines(data), b);
  }

  lemma PastIsLast(data: bytes)
    requires data != []
    ensures LineFor(Lines(data), |data|) == LineFor(Lines(data), |data| - 1)
  {
    hide Lines, Join, LineIndex;
    var ls := Lines(data);
    LinesSound(data);
    NoLines(data);
    LineIndexIs(ls, |data|);
    var i := LineIndex(ls, |data|);
    JoinMonotone(ls, i, |ls|);
    assert ls[..|ls|] == ls;
    if i < |ls| { JoinMonotone(ls, i + 1, |ls|); }
    LineHolds(data, |data| - 1);
    var n := |ls|;
    LastLineNotEmpty(ls);
    assert HoldsByte(ls, n, |data| - 1);
    OneLineHolds(ls, n, LineFor(ls, |data| - 1), |data| - 1);
  }

  /** Line `k` has its number and its content after the edit. */
  predicate Kept(ls: seq<Line>, ls': seq<Line>, k: nat) {
    1 <= k <= |ls| && k <= |ls'| && ls'[k - 1].content == ls[k - 1].content
  }

  /** Old line `k` is line `k + delta` after the edit, content and terminator alike. */
  predicate Moved(ls: seq<Line>, ls': seq<Line>, k: nat, delta: int) {
    1 <= k <= |ls| && 1 <= k + delta <= |ls'| && ls'[k + delta - 1] == ls[k - 1]
  }

  // ---------------------------------------------------------------- before the edit

  /** A text of whole lines keeps their number and content in front of anything. */
  lemma LinesBefore(p: bytes, z: bytes)
    requires forall i :: 0 <= i < |Lines(p)| ==> Lines(p)[i].term != []
    ensures |Lines(p + z)| >= |Lines(p)|
    ensures forall i :: 0 <= i < |Lines(p)| ==> Lines(p + z)[i].content == Lines(p)[i].content
  {
    hide Lines;
    if Boundary(p, z) { LinesConcat(p, z); } else { LinesMerge(p, z); }
  }

  lemma InnerTerms(ls: seq<Line>, n: nat)
    requires WellFormed(ls) && n < |ls|
    ensures forall i :: 0 <= i < n ==> ls[..n][i].term != []
  {
  }

  /** Lines in front of the first touched one keep their number and content. */
  lemma LinesBeforeEdit(data: bytes, offset: nat, removed: nat, insert: bytes)
    requires data != [] && offset + removed <= |data|
    ensures var ls, ls' := Lines(data), Lines(Splice(data, offset, removed, insert));
      var startLine := LineEffect(data, Splice(data, offset, removed, insert), offset, removed).startLine;
      && 1 <= startLine <= |ls| && startLine - 1 <= |ls'|
      && forall k :: 1 <= k < startLine ==> Kept(ls, ls', k)
  {
    hide Lines, Join;
    TouchedLines(data, offset, removed);
    LinesSound(data);
    var ls := Lines(data);
    var n := LineEffect(data, [], offset, removed).startLine - 1;
    JoinTake(data, n);
    InnerTerms(ls, n);
    var p := Join(ls[..n]);
    var new_ := Splice(data, offset, removed, insert);
    assert new_ == p + new_[|p|..] by { PrefixOfSplice(data, offset, removed, insert, p); }
    LinesBefore(p, new_[|p|..]);
    forall k | 1 <= k < n + 1 ensures Kept(ls, Lines(new_), k) { assert ls[..n][k - 1] == ls[k - 1]; }
  }

  lemma PrefixOfSplice(data: bytes, offset: nat, removed: nat, insert: bytes, p: bytes)
    requires offset + removed <= |data| && |p| <= offset && p == data[..|p|]
    ensures Splice(data, offset, removed, insert) == p + Splice(data, offset, removed, insert)[|p|..]
  {
    assert data[..offset] == p + data[|p|..offset];
  }

  // ---------------------------------------------------------------- behind the edit

  /** The new text is what stands before the next old line, and the old lines from there on. */
  lemma SpliceSplits(data: bytes, offset: nat, removed: nat, insert: bytes)
    requires data != [] && offset + removed <= |data|
    requires offset + removed <= NextLineStart(data, offset, removed) <= |data|
    ensures Splice(data, offset, removed, insert)
         == TextBefore(data, offset, removed, insert) + data[NextLineStart(data, offset, removed)..]
  {
    hide NextLineStart;
    var e := NextLineStart(data, offset, removed);
    assert data[offset + removed..] == data[offset + removed..e] + data[e..];
  }

  /**
   * The line-shift theorem. With `old line k` after the last touched line:
   * every k beyond the next line is line k + delta, unchanged, whatever was edited;
   * the next line itself is unchanged at its announced place exactly when a line may
   * start there, that is unless the edit leaves an unterminated line in front of it
   * or joins a CR to its LF.
   */
  lemma LineShiftExact(data: bytes, offset: nat, removed: nat, insert: bytes)
    requires data != [] && offset + removed <= |data|
    ensures var new_ := Splice(data, offset, removed, insert);
      var ls, ls' := Lines(data), Lines(new_);
      var eff := LineEffect(data, new_, offset, removed);
      var e := NextLineStart(data, offset, removed);
      && 1 <= eff.startLine <= eff.endLine <= |ls| && offset + removed <= e <= |data|
      && (forall k :: eff.endLine + 1 < k <= |ls| ==> Moved(ls, ls', k, eff.delta))
      && (eff.endLine < |ls| ==>
            (Moved(ls, ls', eff.endLine + 1, eff.delta) <==> Boundary(TextBefore(data, offset, removed, insert), data[e..])))
  {
    hide Lines, Join, LineFor, LastTouched, Boundary, Splice;
    TouchedLines(data, offset, removed);
    SpliceSplits(data, offset, removed, insert);
    var ls := Lines(data);
    var n := LineEffect(data, [], offset, removed).endLine;
    JoinTake(data, n);
    var x := TextBefore(data, offset, removed, insert);
    var y := data[NextLineStart(data, offset, removed)..];
    assert Lines(y) == ls[n..];
    if Boundary(x, y) { LinesConcat(x, y); } else { LinesMerge(x, y); }
  }

  /** A guard that is enough: a byte of the last touched line survives the cut, or the insert ends in LF. */
  lemma LineShiftGuard(data: bytes, offset: nat, removed: nat, insert: bytes)
    requires data != [] && offset + removed <= |data|
    requires offset + removed < NextLineStart(data, offset, removed) || (insert != [] && insert[|insert| - 1] == LF)
    ensures var new_ := Splice(data, offset, removed, insert);
      var ls, ls' := Lines(data), Lines(new_);
      var eff := LineEffect(data, new_, offset, removed);
      forall k :: eff.endLine < k <= |ls| ==> Moved(ls, ls', k, eff.delta)
  {
    hide Lines, Join, LineFor, LastTouched, Splice, WellFormed;
    LineShiftExact(data, offset, removed, insert);
    TouchedLines(data, offset, removed);
    var e := NextLineStart(data, offset, removed);
    var n := LineEffect(data, [], offset, removed).endLine;
    var ls := Lines(data);
    var x := TextBefore(data, offset, removed, insert);
    if n < |ls| {
      LinesSound(data);
      JoinTake(data, n);
      SliceWellFormed(ls, n);
      JoinLast(ls[..n]);
      JoinFirst(ls[n..]);
      InnerPair(ls, n);
      if offset + removed < e {
        assert x[|x| - 1] == data[e - 1] == data[..e][e - 1];
      } else {
        assert data[offset + removed..e] == [] && x == data[..offset] + insert;
        assert x[|x| - 1] == insert[|insert| - 1];
      }
      assert Boundary(x, data[e..]);
    }
  }

  lemma InnerPair(ls: seq<Line>, n: nat)
    requires WellFormed(ls) && 0 < n < |ls|
    ensures var l, m := ls[..n][n - 1], ls[n..][0];
      (l.term == [LF] || l.term == [CR] || l.term == [CR, LF]) && !(l.term == [CR] && StartsWithLf(m))
  {
  }

  /** Without it the report can be wrong: cutting "a LF" out of "x a LF b" moves "b" nowhere. */
  lemma LineShiftCounterexample()
    ensures var data: bytes := [0x78, 0x61, LF, 0x62]; var new_ := Splice(data, 1, 2, []);
      && LineEffect(data, new_, 1, 2) == Effect(1, 1, -1) && |Lines(data)| == 2
      && !Moved(Lines(data), Lines(new_), 2, -1)
  {
    hide Lines, Join;
    JoinNone();
    var data: bytes := [0x78, 0x61, LF, 0x62];
    var ls := [Line([0x78, 0x61], [LF]), Line([0x62], [])];
    JoinCons(ls[0], [ls[1]]);
    JoinCons(ls[1], []);
    assert ls == [ls[0]] + [ls[1]] && [ls[1]] == [ls[1]] + [];
    assert Join(ls) == data;
    LinesExact(data, ls);
    assert |Text(ls[0])| == 3;
    var new_ := Splice(data, 1, 2, []);
    assert new_ == [0x78, 0x62];
    var one := [Line([0x78, 0x62], [])];
    JoinCons(one[0], []);
    assert one == [one[0]] + [];
    LinesExact(new_, one);
  }
}
