// Reading a file in pages (ds4_agent.c:5469-5473, 5613-5620, 5642-5756): the line
// range of a page, its text, and the cursor that `more` continues from.

module Paging {
  import opened Bytes
  import opened TextLines
  import opened LineShift

  const INT_MAX: int := 0x7FFF_FFFF
  const DEFAULT_LINES: int := 500
  const FILE_MAX: nat := 16 * 1024 * 1024

  /** The value a sum has in a 32-bit `int` that wraps around. */
  function Wrap32(x: int): (r: int)
    ensures -INT_MAX - 1 <= x <= INT_MAX ==> r == x
    ensures -INT_MAX - 1 <= r <= INT_MAX
  {
    (x + 0x8000_0000) % 0x1_0000_0000 - 0x8000_0000
  }

  datatype Page = Page(startIdx: nat, endIdx: int)

  /** The line indices of a page of a file of `n` lines. */
  function PageOf(n: nat, startLine: int, maxLines: int, whole: bool): Page {
    var first := if startLine < 1 then 0 else startLine - 1;
    var startIdx := if first > n then n else first;
    var count := if whole then n - startIdx else if maxLines <= 0 then DEFAULT_LINES else maxLines;
    var end := Wrap32(startIdx + count);
    Page(startIdx, if end > n then n else end)
  }

  /** The numbers, from 1, of the lines a page shows. */
  function Numbers(p: Page): seq<int> {
    if p.endIdx <= p.startIdx then [] else seq(p.endIdx - p.startIdx, i requires 0 <= i => p.startIdx + 1 + i)
  }

  /** Line numbers `from` to `to`. */
  function Range(from: int, to: int): seq<int> {
    if to < from then [] else seq(to - from + 1, i requires 0 <= i => from + i)
  }

  datatype Cursor = Cursor(path: bytes, nextLine: int, bare: bool, valid: bool)

  const NO_CURSOR := Cursor([], 0, false, false)

  function CursorAfter(n: nat, p: Page, path: bytes, bare: bool): Cursor {
    if p.endIdx < n then Cursor(path, p.endIdx + 1, bare, path != [] && p.endIdx + 1 > 0) else NO_CURSOR
  }

  datatype Result = Failed | Numbered(lines: seq<(int, bytes)>) | Bare(text: bytes)

  /** The lines of a page with their numbers. */
  function NumberedLines(ls: seq<Line>, from: nat, to: int): seq<(int, bytes)>
    requires to <= |ls|
  {
    if to <= from then [] else seq(to - from, i requires 0 <= i < to - from => (from + 1 + i, ls[from + i].content))
  }

  /** The text of a page as it stands in the file, ended by LF. */
  function BareText(data: bytes, ls: seq<Line>, p: Page): bytes
    requires p.endIdx <= |ls|
  {
    if p.endIdx <= p.startIdx then []
    else
      var text := Join(ls[p.startIdx..p.endIdx]);
      if text != [] && text[|text| - 1] != LF then text + [LF] else text
  }

  /** What a page of a file returns. */
  function PageResult(data: bytes, p: Page, bare: bool): Result
    requires p.endIdx <= |Lines(data)|
  {
    if bare then Bare(BareText(data, Lines(data), p)) else Numbered(NumberedLines(Lines(data), p.startIdx, p.endIdx))
  }

  class Reader {
    var morePath: bytes
    var moreNextLine: int
    var moreBare: bool
    var moreValid: bool

    function More(): Cursor
      reads this
    {
      Cursor(morePath, moreNextLine, moreBare, moreValid)
    }

    constructor ()
      ensures More() == NO_CURSOR
    {
      morePath, moreNextLine, moreBare, moreValid := [], 0, false, false;
    }

    /** `agent_worker_set_more`. */
    method SetMore(path: bytes, nextLine: int, bare: bool)
      modifies this
      ensures More() == Cursor(path, nextLine, bare, path != [] && nextLine > 0)
    {
      morePath, moreNextLine, moreBare := path, nextLine, bare;
      moreValid := path != [] && nextLine > 0;
    }

    /** `agent_read_range` of a file that holds `data`, with `set_more`. */
    method ReadRange(path: bytes, data: bytes, startLine: int, maxLines: int, whole: bool, bare: bool)
      returns (result: Result)
      modifies this
      ensures path == [] || |data| > FILE_MAX ==> result == Failed && unchanged(this)
      ensures path != [] && |data| <= FILE_MAX ==>
                var n := |Lines(data)|; var p := PageOf(n, startLine, maxLines, whole);
                More() == CursorAfter(n, p, path, bare) && result == PageResult(data, p, bare)
    {
      hide Lines, Spans, Join, BareText, NumberedLines;
      if path == [] || |data| > FILE_MAX { return Failed; }
      var spans := SplitLines(data);
      ghost var ls := Lines(data);
      SpanCount(ls, 0);
      var start := if startLine < 1 then 1 else startLine;
      var startIdx := start - 1;
      if startIdx > |spans| { startIdx := |spans|; }
      var count := maxLines;
      if whole { count := |spans| - startIdx; } else if count <= 0 { count := DEFAULT_LINES; }
      var endIdx := Wrap32(startIdx + count);
      if endIdx > |spans| { endIdx := |spans|; }
      ghost var p := PageOf(|ls|, startLine, maxLines, whole);
      assert p == Page(startIdx, endIdx);
      if bare {
        var text := PageText(data, spans, startIdx, endIdx);
        result := Bare(text);
      } else {
        var out := NumberLines(data, spans, startIdx, endIdx);
        result := Numbered(out);
      }
      if endIdx < |spans| { SetMore(path, endIdx + 1, bare); } else { SetMore([], 0, false); }
    }

    method NumberLines(data: bytes, spans: seq<Span>, startIdx: nat, endIdx: int) returns (out: seq<(int, bytes)>)
      requires spans == Spans(Lines(data), 0) && startIdx <= |Lines(data)| && endIdx <= |Lines(data)|
      ensures out == NumberedLines(Lines(data), startIdx, endIdx)
    {
      hide Lines, Spans;
      out := [];
      var i := startIdx;
      while i < endIdx
        invariant startIdx <= i && (i <= endIdx || endIdx < startIdx)
        invariant out == NumberedLines(Lines(data), startIdx, if endIdx < i then startIdx else i)
      {
        SpanContent(data, i);
        out := out + [(i + 1, data[spans[i].start..spans[i].contentEnd])];
        i := i + 1;
      }
    }

    method PageText(data: bytes, spans: seq<Span>, startIdx: nat, endIdx: int) returns (text: bytes)
      requires spans == Spans(Lines(data), 0) && startIdx <= |Lines(data)| && endIdx <= |Lines(data)|
      ensures text == BareText(data, Lines(data), Page(startIdx, endIdx))
    {
      hide Lines, Spans, Join;
      ghost var ls := Lines(data);
      SpanCount(ls, 0);
      PageBytes(data, startIdx, startIdx);
      if startIdx < |ls| { SpanBounds(data, startIdx); }
      if startIdx < endIdx {
        SpanBounds(data, endIdx - 1);
        assert ls[..endIdx - 1 + 1] == ls[..endIdx];
        PageBytes(data, startIdx, endIdx);
      }
      var from := if startIdx < |spans| then spans[startIdx].start else |data|;
      var to := if endIdx > startIdx then spans[endIdx - 1].end else from;
      text := data[from..to];
      if to > from && text[|text| - 1] != LF { text := text + [LF]; }
    }

    /** `agent_tool_more`: continue where the last page stopped. */
    method ReadMore(data: bytes, count: int) returns (result: Result)
      modifies this
      ensures !old(moreValid) || old(morePath) == [] || |data| > FILE_MAX ==> result == Failed && unchanged(this)
      ensures old(moreValid) && old(morePath) != [] && |data| <= FILE_MAX ==>
                var n := |Lines(data)|; var p := PageOf(n, old(moreNextLine), count, false);
                More() == CursorAfter(n, p, old(morePath), old(moreBare)) && result == PageResult(data, p, old(moreBare))
    {
      if !moreValid { return Failed; }
      result := ReadRange(morePath, data, moreNextLine, count, false, moreBare);
    }
  }

  lemma SpanBounds(data: bytes, i: nat)
    requires i < |Lines(data)|
    ensures var ls := Lines(data);
      && |Spans(ls, 0)| == |ls| && Spans(ls, 0)[i].start == |Join(ls[..i])| && Spans(ls, 0)[i].end == |Join(ls[..i + 1])|
      && |Join(ls[..i + 1])| <= |data|
  {
    hide Lines, Join;
    SpanEnds(Lines(data), 0, i);
    JoinTake(data, i + 1);
  }

  lemma {:induction false} SpanWidth(ls: seq<Line>, at: nat, i: nat)
    requires i < |ls|
    ensures |Spans(ls, at)| == |ls|
    ensures Spans(ls, at)[i].contentEnd == Spans(ls, at)[i].start + |ls[i].content|
  {
    SpanCount(ls, at);
    if i > 0 { SpanWidth(ls[1..], at + |Text(ls[0])|, i - 1); }
  }

  /** A span cuts the content of its line out of the file. */
  lemma SpanContent(data: bytes, i: nat)
    requires i < |Lines(data)|
    ensures var ls := Lines(data); var spans := Spans(ls, 0);
      && |spans| == |ls| && spans[i].start <= spans[i].contentEnd <= |data|
      && data[spans[i].start..spans[i].contentEnd] == ls[i].content
  {
    hide Lines, Join, Spans;
    SpanBounds(data, i);
    SpanWidth(Lines(data), 0, i);
    PageBytes(data, i, i + 1);
    var ls := Lines(data);
    assert ls[i..i + 1] == [ls[i]] + [];
    JoinCons(ls[i], []);
    JoinNone();
    var from := |Join(ls[..i])|;
    var text := data[from..|Join(ls[..i + 1])|];
    assert text == Text(ls[i]);
    assert data[from..from + |ls[i].content|] == text[..|ls[i].content|];
  }

  /** Consecutive lines are consecutive bytes. */
  lemma PageBytes(data: bytes, i: nat, j: nat)
    requires i <= j <= |Lines(data)|
    ensures var ls := Lines(data);
      && |Join(ls[..i])| <= |Join(ls[..j])| <= |data|
      && data[|Join(ls[..i])|..|Join(ls[..j])|] == Join(ls[i..j])
      && (i < j ==> Join(ls[i..j]) != [])
  {
    hide Lines, Join, Text, WellFormed, LineOk;
    var ls := Lines(data);
    JoinTake(data, j);
    assert ls[..j] == ls[..i] + ls[i..j];
    JoinConcat(ls[..i], ls[i..j]);
    var a, b := |Join(ls[..i])|, |Join(ls[..j])|;
    assert data[a..b] == data[..b][a..];
    if i < j {
      LinesSound(data);
      SliceWellFormed(ls, j);
      SliceWellFormed(ls[..j], i);
      assert ls[..j][i..] == ls[i..j];
      JoinFirst(ls[i..j]);
    }
  }

  // ---------------------------------------------------------------- what the pages return

  /** Lines `from` + 1 to `to` of a file. */
  datatype Cut = Cut(from: nat, to: nat)

  function Least(a: int, b: int): int {
    if a < b then a else b
  }

  /** Where a read at line `next` and the `more` calls after it are to cut a file of `n` lines. */
  function Cuts(n: nat, next: int, counts: seq<int>): seq<Cut>
    requires next >= 1 && forall i :: 0 <= i < |counts| ==> counts[i] >= 1
    decreases |counts|
  {
    if counts == [] then []
    else
      var to := Least(next - 1 + counts[0], n);
      [Cut(Least(next - 1, n), to)] + if to < n then Cuts(n, to + 1, counts[1..]) else []
  }

  /** Lines of a file with their numbers, without their terminators. */
  function FileLines(data: bytes, c: Cut): seq<(int, bytes)>
    requires c.from <= c.to <= |Lines(data)|
  {
    seq(c.to - c.from, i requires 0 <= i < c.to - c.from => (c.from + i + 1, Lines(data)[c.from + i].content))
  }

  /** The bytes of lines of a file. */
  function FileBytes(data: bytes, c: Cut): bytes
    requires c.from <= c.to <= |Lines(data)|
  {
    PageBytes(data, c.from, c.to);
    data[|Join(Lines(data)[..c.from])|..|Join(Lines(data)[..c.to])|]
  }

  /** The text, with one LF added unless it is empty or ends in one. */
  function Ended(text: bytes): bytes {
    if text == [] || text[|text| - 1] == LF then text else text + [LF]
  }

  function CutResult(data: bytes, c: Cut, bare: bool): Result
    requires c.from <= c.to <= |Lines(data)|
  {
    if bare then Bare(Ended(FileBytes(data, c))) else Numbered(FileLines(data, c))
  }

  function CutResults(data: bytes, cs: seq<Cut>, bare: bool): seq<Result>
    requires forall c :: c in cs ==> c.from <= c.to <= |Lines(data)|
  {
    seq(|cs|, i requires 0 <= i < |cs| => CutResult(data, cs[i], bare))
  }

  /** What a read at line `next` and the `more` calls after it return. */
  function ReadPages(data: bytes, next: int, counts: seq<int>, bare: bool): seq<Result>
    decreases |counts|
  {
    if counts == [] then []
    else
      var n := |Lines(data)|;
      var p := PageOf(n, next, counts[0], false);
      var c := CursorAfter(n, p, [SLASH], bare);
      [PageResult(data, p, bare)] + if c.valid then ReadPages(data, c.nextLine, counts[1..], c.bare) else []
  }

  /** The cuts follow one another from the start line on, up to what was asked for or to the end. */
  lemma {:induction false} CutsCover(n: nat, next: int, counts: seq<int>)
    requires next >= 1 && (forall i :: 0 <= i < |counts| ==> counts[i] >= 1) && counts != []
    ensures var cs := Cuts(n, next, counts);
      && cs != [] && |cs| <= |counts| && cs[0].from == Least(next - 1, n) && cs[|cs| - 1].to == Least(next - 1 + Sum(counts), n)
      && (forall c :: c in cs ==> c.from <= c.to <= n)
      && forall i :: 0 <= i < |cs| - 1 ==> cs[i].to == cs[i + 1].from
    decreases |counts|
  {
    hide Cuts, Sum;
    var to := Least(next - 1 + counts[0], n);
    CutsStep(n, next, counts);
    SumStep(counts);
    if to < n && counts[1..] != [] {
      CutsCover(n, to + 1, counts[1..]);
      CutsPrepend(Cut(Least(next - 1, n), to), Cuts(n, to + 1, counts[1..]), n);
    }
  }

  lemma CutsStep(n: nat, next: int, counts: seq<int>)
    requires next >= 1 && (forall i :: 0 <= i < |counts| ==> counts[i] >= 1) && counts != []
    ensures var to := Least(next - 1 + counts[0], n);
      && Cuts(n, next, counts) == [Cut(Least(next - 1, n), to)] + (if to < n then Cuts(n, to + 1, counts[1..]) else [])
      && Cuts(n, to + 1, []) == []
  {
  }

  lemma SumStep(counts: seq<int>)
    requires counts != [] && forall i :: 0 <= i < |counts| ==> counts[i] >= 1
    ensures Sum(counts) == counts[0] + Sum(counts[1..]) && Sum(counts[1..]) >= |counts| - 1 && Sum([]) == 0
  {
    SumPositive(counts[1..]);
  }

  lemma CutsPrepend(c: Cut, cs: seq<Cut>, n: nat)
    requires cs != [] && c.from <= c.to <= n && c.to == cs[0].from && (forall d :: d in cs ==> d.from <= d.to <= n)
    requires forall i :: 0 <= i < |cs| - 1 ==> cs[i].to == cs[i + 1].from
    ensures var all := [c] + cs;
      && (forall d :: d in all ==> d.from <= d.to <= n) && all[|all| - 1] == cs[|cs| - 1]
      && forall i :: 0 <= i < |all| - 1 ==> all[i].to == all[i + 1].from
  {
  }

  lemma CutsAreCuts(n: nat, next: int, counts: seq<int>)
    requires next >= 1 && forall i :: 0 <= i < |counts| ==> counts[i] >= 1
    ensures forall c :: c in Cuts(n, next, counts) ==> c.from <= c.to <= n
  {
    if counts != [] { CutsCover(n, next, counts); }
  }

  /** One page returns the lines of its cut exactly when it fits. */
  lemma PageIsCut(data: bytes, next: int, count: int, bare: bool)
    requires |Lines(data)| <= FILE_MAX && 1 <= next <= INT_MAX && 1 <= count <= INT_MAX
    ensures var n := |Lines(data)|;
      (PageResult(data, PageOf(n, next, count, false), bare)
       == CutResult(data, Cut(Least(next - 1, n), Least(next - 1 + count, n)), bare)) <==> Fits(n, next, count)
  {
    hide Lines, Join;
    var n := |Lines(data)|;
    var p := PageOf(n, next, count, false);
    var c := Cut(Least(next - 1, n), Least(next - 1 + count, n));
    PageBytes(data, c.from, c.to);
    if p.startIdx + count > INT_MAX {
      assert Wrap32(p.startIdx + count) == p.startIdx + count - 0x1_0000_0000;
    }
    if Fits(n, next, count) {
      assert p.startIdx == c.from && (p.endIdx == c.to || (p.endIdx <= p.startIdx && c.to == c.from));
      PageIsThere(data, p, c, bare);
    } else {
      assert p.endIdx <= p.startIdx && c.from < c.to;
      assert FileBytes(data, c) == Join(Lines(data)[c.from..c.to]) != [];
      assert |FileLines(data, c)| > 0;
    }
  }

  lemma PageIsThere(data: bytes, p: Page, c: Cut, bare: bool)
    requires c.from <= c.to <= |Lines(data)| && p.startIdx == c.from && p.endIdx <= |Lines(data)|
    requires p.endIdx == c.to || (p.endIdx <= p.startIdx && c.to == c.from)
    ensures PageResult(data, p, bare) == CutResult(data, c, bare)
  {
    hide Lines, Join;
    PageBytes(data, c.from, c.to);
    if c.from == c.to {
      assert FileBytes(data, c) == [];
    }
  }

  /**
   * Paging returns the file: for every start line that the tool accepts and all counts, a
   * read and the `more` calls after it return, page for page, exactly the lines of the
   * consecutive cuts, numbered or as they stand in the file, if and only if no page
   * overflows.
   */
  lemma {:induction false} PagesReturnTheFile(data: bytes, next: int, counts: seq<int>, bare: bool)
    requires |Lines(data)| <= FILE_MAX && 1 <= next <= INT_MAX
    requires forall i :: 0 <= i < |counts| ==> 1 <= counts[i] <= INT_MAX
    ensures (forall c :: c in Cuts(|Lines(data)|, next, counts) ==> c.from <= c.to <= |Lines(data)|)
    ensures ReadPages(data, next, counts, bare) == CutResults(data, Cuts(|Lines(data)|, next, counts), bare)
            <==> NoOverflow(|Lines(data)|, next, counts)
    decreases |counts|
  {
    hide Lines, PageOf, PageResult, CutResult, CursorAfter, Numbers, ReadPages, Cuts, CutResults;
    var n := |Lines(data)|;
    CutsAreCuts(n, next, counts);
    if counts == [] {
      NoPages(data, next, bare);
    } else {
      PageIsCut(data, next, counts[0], bare);
      FirstPage(data, next, counts, bare);
      FirstCut(data, next, counts, bare);
      var to := Least(next - 1 + counts[0], n);
      if to < n {
        PagesReturnTheFile(data, to + 1, counts[1..], bare);
        var pages := ReadPages(data, next, counts, bare);
        var want := CutResults(data, Cuts(n, next, counts), bare);
        assert pages == [pages[0]] + pages[1..] && want == [want[0]] + want[1..];
      }
    }
  }

  lemma NoPages(data: bytes, next: int, bare: bool)
    requires next >= 1
    ensures Cuts(|Lines(data)|, next, []) == []
    ensures ReadPages(data, next, [], bare) == [] && CutResults(data, [], bare) == []
  {
  }

  lemma FirstPage(data: bytes, next: int, counts: seq<int>, bare: bool)
    requires |Lines(data)| <= FILE_MAX && 1 <= next <= INT_MAX && counts != [] && 1 <= counts[0] <= INT_MAX
    ensures var n := |Lines(data)|; var pages := ReadPages(data, next, counts, bare); var to := Least(next - 1 + counts[0], n);
      && pages != [] && pages[0] == PageResult(data, PageOf(n, next, counts[0], false), bare)
      && pages[1..] == if to < n then ReadPages(data, to + 1, counts[1..], bare) else []
  {
    hide Lines, PageResult;
    PageStepBare(|Lines(data)|, next, counts[0], bare);
  }

  lemma FirstCut(data: bytes, next: int, counts: seq<int>, bare: bool)
    requires next >= 1 && counts != [] && forall i :: 0 <= i < |counts| ==> counts[i] >= 1
    ensures var n := |Lines(data)|; var cs := Cuts(n, next, counts); var to := Least(next - 1 + counts[0], n);
      && (forall c :: c in cs ==> c.from <= c.to <= n) && cs != [] && cs[0] == Cut(Least(next - 1, n), to)
      && |CutResults(data, cs, bare)| == |cs| && CutResults(data, cs, bare)[0] == CutResult(data, cs[0], bare)
      && cs[1..] == (if to < n then Cuts(n, to + 1, counts[1..]) else [])
      && CutResults(data, cs, bare)[1..] == CutResults(data, cs[1..], bare)
  {
    hide Lines, CutResult;
    CutsAreCuts(|Lines(data)|, next, counts);
  }

  /** All numbered lines that pages return. */
  function AllLines(pages: seq<Result>): seq<(int, bytes)> {
    if pages == [] then [] else (if pages[0].Numbered? then pages[0].lines else []) + AllLines(pages[1..])
  }

  function AllBytes(data: bytes, cs: seq<Cut>): bytes
    requires forall c :: c in cs ==> c.from <= c.to <= |Lines(data)|
  {
    if cs == [] then [] else FileBytes(data, cs[0]) + AllBytes(data, cs[1..])
  }

  lemma {:induction false} CutsJoin(data: bytes, cs: seq<Cut>)
    requires cs != [] && (forall c :: c in cs ==> c.from <= c.to <= |Lines(data)|)
    requires forall i :: 0 <= i < |cs| - 1 ==> cs[i].to == cs[i + 1].from
    ensures cs[0].from <= cs[|cs| - 1].to
    ensures AllLines(CutResults(data, cs, false)) == FileLines(data, Cut(cs[0].from, cs[|cs| - 1].to))
    ensures AllBytes(data, cs) == FileBytes(data, Cut(cs[0].from, cs[|cs| - 1].to))
    decreases |cs|
  {
    hide Lines, Join;
    var all := CutResults(data, cs, false);
    assert all[0] == Numbered(FileLines(data, cs[0]));
    assert all[1..] == CutResults(data, cs[1..], false);
    if |cs| == 1 {
      assert AllLines(all) == FileLines(data, cs[0]) + [] && AllBytes(data, cs) == FileBytes(data, cs[0]) + [];
    } else {
      CutsJoin(data, cs[1..]);
      BytesJoin(data, cs[0].from, cs[0].to, cs[|cs| - 1].to);
    }
  }

  lemma BytesJoin(data: bytes, a: nat, b: nat, c: nat)
    requires a <= b <= c <= |Lines(data)|
    ensures FileBytes(data, Cut(a, b)) + FileBytes(data, Cut(b, c)) == FileBytes(data, Cut(a, c))
    ensures FileLines(data, Cut(a, b)) + FileLines(data, Cut(b, c)) == FileLines(data, Cut(a, c))
  {
    hide Lines, Join;
    PageBytes(data, a, b);
    PageBytes(data, b, c);
    PageBytes(data, a, c);
  }

  /**
   * All together: without an overflow the numbered pages joined are the lines from the
   * start line on, each with its number, as many as asked for or as there are; and the
   * bare pages are the file's bytes of those lines, cut where the pages end, one LF added
   * to a page that lacks it.
   */
  lemma PagesTogether(data: bytes, next: int, counts: seq<int>)
    requires |Lines(data)| <= FILE_MAX && 1 <= next <= INT_MAX && counts != []
    requires (forall i :: 0 <= i < |counts| ==> 1 <= counts[i] <= INT_MAX) && NoOverflow(|Lines(data)|, next, counts)
    ensures var n := |Lines(data)|; var cs := Cuts(n, next, counts);
      && cs != [] && (forall c :: c in cs ==> c.from <= c.to <= n)
      && var all := Cut(cs[0].from, cs[|cs| - 1].to);
      && all.from == Least(next - 1, n) && all.to == Least(next - 1 + Sum(counts), n) && all.from <= all.to
      && AllLines(ReadPages(data, next, counts, false)) == FileLines(data, all)
      && AllBytes(data, cs) == FileBytes(data, all)
      && |ReadPages(data, next, counts, true)| == |cs|
      && forall i :: 0 <= i < |cs| ==> ReadPages(data, next, counts, true)[i] == Bare(Ended(FileBytes(data, cs[i])))
  {
    hide Lines, ReadPages, Cuts, NoOverflow, Sum, FileBytes, FileLines;
    var n := |Lines(data)|;
    PagesReturnTheFile(data, next, counts, false);
    PagesReturnTheFile(data, next, counts, true);
    CutsCover(n, next, counts);
    CutsJoin(data, Cuts(n, next, counts));
  }

  /** A read of the whole file from a line on returns all of it and leaves nothing to continue. */
  lemma WholeReturnsTheRest(data: bytes, startLine: int, maxLines: int, path: bytes, bare: bool)
    requires |Lines(data)| <= FILE_MAX && startLine <= INT_MAX
    ensures var n := |Lines(data)|; var p := PageOf(n, startLine, maxLines, true);
      var from := if startLine < 1 then 0 else Least(startLine - 1, n);
      PageResult(data, p, bare) == CutResult(data, Cut(from, n), bare) && CursorAfter(n, p, path, bare) == NO_CURSOR
  {
    hide Lines;
    var n := |Lines(data)|;
    var p := PageOf(n, startLine, maxLines, true);
    PageIsThere(data, p, Cut(p.startIdx, n), bare);
  }

  /** A start line below one is the first line, and a count below one is the default count. */
  lemma DefaultsAreRead(n: nat, startLine: int, maxLines: int)
    ensures startLine < 1 ==> PageOf(n, startLine, maxLines, false) == PageOf(n, 1, maxLines, false)
    ensures maxLines < 1 ==> PageOf(n, startLine, maxLines, false) == PageOf(n, startLine, DEFAULT_LINES, false)
  {
  }

  lemma PageStepBare(n: nat, next: int, count: int, bare: bool)
    requires n <= FILE_MAX && 1 <= next <= INT_MAX && 1 <= count <= INT_MAX
    ensures var c := CursorAfter(n, PageOf(n, next, count, false), [SLASH], bare);
      (c.valid <==> next - 1 + count < n) && (c.valid ==> c.nextLine == next + count && c.bare == bare)
  {
    var p := PageOf(n, next, count, false);
    if p.startIdx + count > INT_MAX {
      assert Wrap32(p.startIdx + count) == p.startIdx + count - 0x1_0000_0000;
    }
  }

  // ---------------------------------------------------------------- paging covers once

  /** One page shows the next `count` lines, or what is left, exactly when the sum fits an int. */
  lemma PageExact(n: nat, startLine: int, count: int)
    requires n <= FILE_MAX && 1 <= startLine <= INT_MAX && 1 <= count <= INT_MAX
    ensures var p := PageOf(n, startLine, count, false);
      var left := n - p.startIdx;
      Numbers(p) == Range(p.startIdx + 1, p.startIdx + (if count < left then count else left))
      <==> p.startIdx + count <= INT_MAX || p.startIdx == n
  {
    var p := PageOf(n, startLine, count, false);
    var left := n - p.startIdx;
    var want := if count < left then count else left;
    if p.startIdx + count > INT_MAX && p.startIdx < n {
      assert Wrap32(p.startIdx + count) == p.startIdx + count - 0x1_0000_0000;
      assert |Range(p.startIdx + 1, p.startIdx + want)| == want > 0;
    }
  }

  /** The lines shown by a read at `next` and the `more` calls after it. */
  function Shown(n: nat, next: int, counts: seq<int>): seq<int>
    decreases |counts|
  {
    if counts == [] then []
    else
      var p := PageOf(n, next, counts[0], false);
      var c := CursorAfter(n, p, [SLASH], false);
      Numbers(p) + if c.valid then Shown(n, c.nextLine, counts[1..]) else []
  }

  function Sum(counts: seq<int>): int {
    if counts == [] then 0 else counts[0] + Sum(counts[1..])
  }

  lemma RangeSplits(a: int, b: int, c: int)
    requires a <= b + 1 && b <= c
    ensures Range(a, b) + Range(b + 1, c) == Range(a, c)
  {
  }

  lemma {:induction false} SumPositive(counts: seq<int>)
    requires forall c :: c in counts ==> c >= 1
    ensures Sum(counts) >= |counts|
  {
    if counts != [] {
      assert counts[0] in counts && forall c :: c in counts[1..] ==> c in counts;
      SumPositive(counts[1..]);
    }
  }

  /** One page that shows its lines or stands behind the last one. */
  predicate Fits(n: nat, next: int, count: int) {
    next - 1 + count <= INT_MAX || next - 1 >= n
  }

  /** No page of a run overflows before the last line is shown. */
  predicate NoOverflow(n: nat, next: int, counts: seq<int>)
    decreases |counts|
  {
    counts == [] ||
    (Fits(n, next, counts[0]) && (next - 1 + counts[0] < n ==> NoOverflow(n, next + counts[0], counts[1..])))
  }

  lemma PageStep(n: nat, next: int, count: int)
    requires n <= FILE_MAX && 1 <= next <= INT_MAX && 1 <= count <= INT_MAX
    ensures var p := PageOf(n, next, count, false); var c := CursorAfter(n, p, [SLASH], false);
      && (c.valid <==> next - 1 + count < n) && (c.valid ==> c.nextLine == next + count)
      && (Fits(n, next, count) ==> Numbers(p) == Range(next, if next - 1 + count < n then next - 1 + count else n))
      && (!Fits(n, next, count) ==> Numbers(p) == [])
  {
    var p := PageOf(n, next, count, false);
    if p.startIdx + count > INT_MAX {
      assert Wrap32(p.startIdx + count) == p.startIdx + count - 0x1_0000_0000;
    }
  }

  lemma ShownLength(n: nat, next: int, counts: seq<int>)
    requires n <= FILE_MAX && 1 <= next <= INT_MAX && forall c :: c in counts ==> 1 <= c <= INT_MAX
    requires !NoOverflow(n, next, counts)
    ensures |Shown(n, next, counts)| < n - (next - 1) && |Shown(n, next, counts)| < Sum(counts)
    decreases |counts|
  {
    hide PageOf, Numbers, CursorAfter;
    assert counts[0] in counts && forall c :: c in counts[1..] ==> c in counts;
    PageStep(n, next, counts[0]);
    SumPositive(counts[1..]);
    if Fits(n, next, counts[0]) { ShownLength(n, next + counts[0], counts[1..]); }
  }

  /**
   * Paging covers once, exactly: for any counts a read at line `next` and the `more`
   * calls after it show the lines from there on, each once and in order, as many as were
   * asked for or as there are (none from behind the last line), if and only if no page
   * overflows.
   */
  lemma {:induction false} PagingCoversOnce(n: nat, next: int, counts: seq<int>)
    requires n <= FILE_MAX && 1 <= next <= INT_MAX
    requires forall c :: c in counts ==> 1 <= c <= INT_MAX
    ensures var last := next - 1 + Sum(counts);
      Shown(n, next, counts) == Range(next, if last < n then last else n) <==> NoOverflow(n, next, counts)
  {
    SumPositive(counts);
    if NoOverflow(n, next, counts) { ShownInOrder(n, next, counts); } else { ShownLength(n, next, counts); }
  }

  lemma {:induction false} ShownInOrder(n: nat, next: int, counts: seq<int>)
    requires n <= FILE_MAX && 1 <= next <= INT_MAX
    requires (forall c :: c in counts ==> 1 <= c <= INT_MAX) && NoOverflow(n, next, counts)
    ensures var last := next - 1 + Sum(counts);
      Shown(n, next, counts) == Range(next, if last < n then last else n)
    decreases |counts|
  {
    hide PageOf, Numbers, Range, CursorAfter;
    if counts == [] {
      RangeEmpty(next, next - 1);
      if n < next { RangeEmpty(next, n); }
    } else {
      assert counts[0] in counts && forall c :: c in counts[1..] ==> c in counts;
      var p := PageOf(n, next, counts[0], false);
      PageStep(n, next, counts[0]);
      SumPositive(counts[1..]);
      if next - 1 + counts[0] < n {
        ShownInOrder(n, next + counts[0], counts[1..]);
        var last := next - 1 + Sum(counts);
        RangeSplits(next, next - 1 + counts[0], if last < n then last else n);
      } else {
        assert Numbers(p) + [] == Numbers(p);
      }
    }
  }

  lemma RangeEmpty(a: int, b: int)
    requires b < a
    ensures Range(a, b) == []
  {
  }

  /**
   * The cursor only moves forward, and it becomes invalid exactly when the page was asked
   * for all that is left; that page shows the last line unless it overflowed.
   */
  lemma CursorAdvances(n: nat, next: int, count: int, path: bytes, bare: bool)
    requires n <= FILE_MAX && 1 <= next <= INT_MAX && 1 <= count <= INT_MAX && path != []
    ensures var p := PageOf(n, next, count, false); var c := CursorAfter(n, p, path, bare);
      && (c.valid ==> next < c.nextLine <= n)
      && (c.valid <==> next - 1 + count < n)
      && (!c.valid && next <= n ==> (n in Numbers(p) <==> Fits(n, next, count)))
  {
    var p := PageOf(n, next, count, false);
    if p.startIdx + count > INT_MAX {
      assert Wrap32(p.startIdx + count) == p.startIdx + count - 0x1_0000_0000;
    } else if next - 1 + count >= n && next <= n {
      assert Numbers(p)[n - next] == n;
    }
  }
}
