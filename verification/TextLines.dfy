// Lines of a file (ds4_agent.c:5500-5528, 5576-5611): splitting at LF, CR and CRLF,
// and what an edit does to line numbers.

module TextLines {
  import opened Bytes

  /** A line: its text and the terminator as it is spelled, empty at the end of a file. */
  datatype Line = Line(content: bytes, term: bytes)

  predicate IsBreak(c: byte) { c == LF || c == CR }

  /** Length of the text before the first line break. */
  function ContentLen(s: bytes): (n: nat)
    ensures n <= |s|
    ensures forall i :: 0 <= i < n ==> !IsBreak(s[i])
    ensures n < |s| ==> IsBreak(s[n])
  {
    if s == [] || IsBreak(s[0]) then 0 else 1 + ContentLen(s[1..])
  }

  /** Length of the terminator at the start of `s`. */
  function TermLen(s: bytes): (n: nat)
    ensures n <= |s|
  {
    if s == [] then 0
    else if s[0] == CR && |s| > 1 && s[1] == LF then 2
    else 1
  }

  function FirstLine(s: bytes): Line {
    var n := ContentLen(s);
    var k := TermLen(s[n..]);
    Line(s[..n], s[n..n + k])
  }

  function Text(l: Line): bytes { l.content + l.term }

  function Lines(s: bytes): (ls: seq<Line>)
    decreases |s|
  {
    if s == [] then []
    else
      var l := FirstLine(s);
      [l] + Lines(s[|Text(l)|..])
  }

  function Join(ls: seq<Line>): bytes {
    if ls == [] then [] else Text(ls[0]) + Join(ls[1..])
  }

  // ---------------------------------------------------------------- what lines are

  predicate LineOk(l: Line) {
    && (forall i :: 0 <= i < |l.content| ==> !IsBreak(l.content[i]))
    && (l.term == [] || l.term == [LF] || l.term == [CR] || l.term == [CR, LF])
  }

  predicate StartsWithLf(l: Line) { l.content == [] && l.term == [LF] }

  /** Text without breaks, one terminator each (none only at the end), and no CR LF torn apart. */
  predicate WellFormed(ls: seq<Line>) {
    && (forall i :: 0 <= i < |ls| ==> LineOk(ls[i]) && (ls[i].term == [] ==> i == |ls| - 1 && ls[i].content != []))
    && (forall i :: 0 <= i < |ls| - 1 ==> ls[i].term == [CR] ==> !StartsWithLf(ls[i + 1]))
  }

  lemma {:induction false} ContentLenIs(s: bytes, n: nat)
    requires n <= |s| && (n < |s| ==> IsBreak(s[n])) && forall i :: 0 <= i < n ==> !IsBreak(s[i])
    ensures ContentLen(s) == n
  {
    if n > 0 { ContentLenIs(s[1..], n - 1); }
  }

  lemma FirstLineIs(l: Line, rest: bytes)
    requires LineOk(l) && (l.term == [] ==> rest == [] && l.content != [])
    requires l.term == [CR] && rest != [] ==> rest[0] != LF
    ensures FirstLine(Text(l) + rest) == l && Text(l) != []
  {
    var s := Text(l) + rest;
    var n := |l.content|;
    assert s == l.content + (l.term + rest);
    assert s[n..] == l.term + rest;
    if l.term != [] { assert s[n] == l.term[0]; }
    ContentLenIs(s, n);
    assert s[..n] == l.content;
    var t := l.term + rest;
    assert TermLen(t) == |l.term| by {
      if l.term == [CR] && rest != [] { assert t[1] == rest[0]; }
    }
    assert s[n..n + |l.term|] == t[..|l.term|] == l.term;
  }

  lemma FirstLineOk(s: bytes)
    requires s != []
    ensures var l := FirstLine(s);
      && LineOk(l) && Text(l) != [] && Text(l) <= s && (l.term == [] ==> Text(l) == s)
      && (l.term == [CR] && |Text(l)| < |s| ==> s[|Text(l)|] != LF)
  {
    var n := ContentLen(s);
    var t := s[n..];
    var k := TermLen(t);
    assert s[n..n + k] == t[..k];
    if t != [] {
      assert t[0] == s[n];
      if |t| > 1 { assert t[1] == s[n + 1]; }
    }
    assert s[..n] + s[n..n + k] == s[..n + k];
  }

  lemma JoinFirst(ls: seq<Line>)
    requires WellFormed(ls) && ls != []
    ensures Join(ls) != [] && (Join(ls)[0] == LF <==> StartsWithLf(ls[0]))
  {
    assert Text(ls[0]) != [];
    assert Join(ls)[0] == Text(ls[0])[0];
  }

  lemma ConsWellFormed(l: Line, ls: seq<Line>)
    requires LineOk(l) && Text(l) != [] && (l.term == [] ==> ls == []) && WellFormed(ls)
    requires ls != [] && l.term == [CR] ==> !StartsWithLf(ls[0])
    ensures WellFormed([l] + ls)
  {
  }

  lemma UnconsWellFormed(ls: seq<Line>)
    requires WellFormed(ls) && ls != []
    ensures var l := ls[0];
      && LineOk(l) && Text(l) != [] && (l.term == [] ==> ls[1..] == [] && l.content != []) && WellFormed(ls[1..])
      && (|ls| > 1 && l.term == [CR] ==> !StartsWithLf(ls[1]))
  {
  }

  lemma JoinCons(l: Line, ls: seq<Line>)
    ensures Join([l] + ls) == Text(l) + Join(ls)
  {
    assert ([l] + ls)[1..] == ls;
  }

  lemma {:induction false} LinesSound(s: bytes)
    ensures WellFormed(Lines(s)) && Join(Lines(s)) == s
    decreases |s|
  {
    hide FirstLine, Text, LineOk, WellFormed, StartsWithLf;
    if s != [] {
      FirstLineOk(s);
      var l := FirstLine(s);
      var rest := s[|Text(l)|..];
      LinesSound(rest);
      assert s == Text(l) + rest;
      if rest != [] {
        assert rest[0] == s[|Text(l)|];
        JoinFirst(Lines(rest));
      }
      ConsWellFormed(l, Lines(rest));
      JoinCons(l, Lines(rest));
    } else {
      assert WellFormed([]) by { EmptyWellFormed(); }
    }
  }

  lemma EmptyWellFormed()
    ensures WellFormed([])
  {
  }

  lemma {:induction false} WellFormedIsLines(ls: seq<Line>)
    requires WellFormed(ls)
    ensures ls == Lines(Join(ls))
    decreases |ls|
  {
    hide FirstLine, Text, LineOk, WellFormed, StartsWithLf;
    if ls != [] {
      UnconsWellFormed(ls);
      var l := ls[0];
      var rest := Join(ls[1..]);
      if |ls| > 1 { JoinFirst(ls[1..]); }
      FirstLineIs(l, rest);
      assert (Text(l) + rest)[|Text(l)|..] == rest;
      WellFormedIsLines(ls[1..]);
      assert ls == [l] + ls[1..];
    }
  }

  /** The lines of a text are the one well-formed way to cut it. */
  lemma LinesExact(s: bytes, ls: seq<Line>)
    ensures ls == Lines(s) <==> WellFormed(ls) && Join(ls) == s
  {
    hide Lines, Join, WellFormed;
    LinesSound(s);
    if WellFormed(ls) && Join(ls) == s { WellFormedIsLines(ls); }
  }

  // ---------------------------------------------------------------- putting texts together

  lemma {:induction false} JoinConcat(a: seq<Line>, b: seq<Line>)
    ensures Join(a + b) == Join(a) + Join(b)
  {
    hide Text;
    if a == [] {
      assert a + b == b;
      assert [] + Join(b) == Join(b);
    } else {
      JoinConcat(a[1..], b);
      assert (a + b)[1..] == a[1..] + b;
      Associative(Text(a[0]), Join(a[1..]), Join(b));
    }
  }

  /** A line may start after `x` when `y` follows. */
  predicate Boundary(x: bytes, y: bytes) {
    x == [] || y == [] || x[|x| - 1] == LF || (x[|x| - 1] == CR && y[0] != LF)
  }

  lemma JoinLast(ls: seq<Line>)
    requires WellFormed(ls) && ls != []
    ensures var s := Join(ls); var l := ls[|ls| - 1];
      && s != [] && s[|s| - 1] == Text(l)[|Text(l)| - 1]
      && (s[|s| - 1] == LF <==> l.term == [LF] || l.term == [CR, LF]) && (s[|s| - 1] == CR <==> l.term == [CR])
  {
    var n := |ls| - 1;
    var l := ls[n];
    assert ls == ls[..n] + [l];
    JoinConcat(ls[..n], [l]);
    assert Join([l]) == Text(l) + [];
    assert Text(l) != [];
    if l.term == [] { assert Text(l)[|Text(l)| - 1] == l.content[|l.content| - 1]; }
  }

  lemma ConcatWellFormed(a: seq<Line>, b: seq<Line>)
    requires WellFormed(a) && WellFormed(b)
    requires a != [] && b != [] ==> a[|a| - 1].term != [] && !(a[|a| - 1].term == [CR] && StartsWithLf(b[0]))
    ensures WellFormed(a + b)
  {
    var ls := a + b;
    assert forall i :: 0 <= i < |a| ==> ls[i] == a[i];
    assert forall i :: |a| <= i < |ls| ==> ls[i] == b[i - |a|];
  }

  /** At a boundary the lines of a text are the lines of its two parts. */
  lemma LinesConcat(x: bytes, y: bytes)
    requires Boundary(x, y)
    ensures Lines(x + y) == Lines(x) + Lines(y)
  {
    hide Lines, Join, WellFormed;
    LinesSound(x);
    LinesSound(y);
    NoLines(x);
    NoLines(y);
    var a, b := Lines(x), Lines(y);
    JoinConcat(a, b);
    if a != [] && b != [] {
      JoinLast(a);
      JoinFirst(b);
    }
    ConcatWellFormed(a, b);
    LinesExact(x + y, a + b);
  }

  lemma NoLines(s: bytes)
    ensures Lines(s) == [] <==> s == []
  {
  }

  /** The line that the end of one text and the start of the next make together. */
  function Merged(l: Line, m: Line): Line {
    if l.term == [] then Line(l.content + m.content, m.term) else Line(l.content, l.term + m.term)
  }

  /** Elsewhere exactly one line of each part melts into one. */
  lemma LinesMerge(x: bytes, y: bytes)
    requires !Boundary(x, y)
    ensures var a, b := Lines(x), Lines(y);
      && a != [] && b != []
      && Lines(x + y) == a[..|a| - 1] + [Merged(a[|a| - 1], b[0])] + b[1..]
      && Merged(a[|a| - 1], b[0]) != b[0]
  {
    hide Lines, Join, WellFormed;
    LinesSound(x);
    LinesSound(y);
    NoLines(x);
    NoLines(y);
    var a, b := Lines(x), Lines(y);
    JoinLast(a);
    JoinFirst(b);
    var n := |a| - 1;
    LastTerm(a);
    MergedText(a[n], b[0]);
    JoinMerged(a, b);
    MergedWellFormed(a, b);
    LinesExact(x + y, a[..n] + [Merged(a[n], b[0])] + b[1..]);
  }

  lemma LastTerm(a: seq<Line>)
    requires WellFormed(a) && a != []
    ensures var l := a[|a| - 1];
      LineOk(l) && (l.term == [] ==> l.content != [])
  {
  }

  lemma MergedText(l: Line, m: Line)
    requires (l.term == [] && l.content != []) || (l.term == [CR] && StartsWithLf(m))
    ensures Text(Merged(l, m)) == Text(l) + Text(m) && Merged(l, m) != m
  {
    if l.term == [] { assert |Merged(l, m).content| > |m.content|; }
  }

  lemma JoinMerged(a: seq<Line>, b: seq<Line>)
    requires a != [] && b != [] && Text(Merged(a[|a| - 1], b[0])) == Text(a[|a| - 1]) + Text(b[0])
    ensures Join(a[..|a| - 1] + [Merged(a[|a| - 1], b[0])] + b[1..]) == Join(a) + Join(b)
  {
    hide Text, Merged, Join;
    var n := |a| - 1;
    var mm := Merged(a[n], b[0]);
    var front, back := Join(a[..n]), Join(b[1..]);
    assert a == a[..n] + [a[n]] && b == [b[0]] + b[1..] && [a[n]] == [a[n]] + [] && [mm] == [mm] + [];
    JoinConcat(a[..n], [a[n]]);
    JoinCons(a[n], []);
    JoinCons(b[0], b[1..]);
    JoinConcat(a[..n] + [mm], b[1..]);
    JoinConcat(a[..n], [mm]);
    JoinCons(mm, []);
    JoinNone();
    Regroup(front, Text(a[n]), Text(b[0]), back);
  }

  lemma Regroup(a: bytes, b: bytes, c: bytes, d: bytes)
    ensures a + (b + c + []) + d == a + (b + []) + (c + d)
  {
  }

  lemma JoinNone()
    ensures Join([]) == []
  {
  }

  lemma MergedWellFormed(a: seq<Line>, b: seq<Line>)
    requires WellFormed(a) && WellFormed(b) && a != [] && b != []
    requires a[|a| - 1].term == [] || (a[|a| - 1].term == [CR] && StartsWithLf(b[0]))
    ensures WellFormed(a[..|a| - 1] + [Merged(a[|a| - 1], b[0])] + b[1..])
  {
    var n := |a| - 1;
    var mm := Merged(a[n], b[0]);
    var ls := a[..n] + [mm] + b[1..];
    assert forall i :: 0 <= i < n ==> ls[i] == a[i];
    assert ls[n] == mm;
    assert forall i :: n < i < |ls| ==> ls[i] == b[i - n];
    assert LineOk(mm);
    assert a[n].term == [] ==> a[n].content != [];
  }
}
