// From the text of an answer to the tools it runs (ds4_agent.c:3349-3508, 7806-7974):
// printed calls behind ordinary text run as they were printed.

module ToolText {
  import opened Bytes
  import opened DsmlTags
  import P = DsmlParse
  import D = DsmlStream
  import R = DsmlRoundTrip
  import opened TagSplitter
  import opened StreamDisplay
  import opened ToolRound

  // ---------------------------------------------------------------- text without markers

  ghost predicate MarkerFree(t: bytes) {
    forall m :: m in MARKERS ==> FindSub(t, m).None?
  }

  /** No think tag starts in the text. */
  predicate TagFree(t: bytes) {
    FindSub(t, THINK_OPEN).None? && FindSub(t, THINK_CLOSE).None?
  }

  predicate NoBlank(t: bytes) {
    forall i :: 0 <= i < |t| ==> !IsBlank(t[i])
  }

  lemma FreePrefix(a: bytes, b: bytes)
    requires MarkerFree(a + b)
    ensures MarkerFree(a)
  {
    hide FindSub, MARKERS;
    forall m | m in MARKERS ensures FindSub(a, m).None? {
      if FindSub(a, m).Some? { FindSubStable(a, b, m); }
    }
  }

  /** A text that holds a marker is not free of markers. */
  lemma HoldsMarker(a: bytes, m: bytes, b: bytes)
    requires m in MARKERS
    ensures !MarkerFree(a + m + b)
  {
    hide FindSub, MARKERS;
    var t := a + m + b;
    assert t[|a|..] == m + b;
    FindSubNone(t, m);
  }

  lemma MarkersHaveNoBlank(m: bytes)
    requires m in MARKERS
    ensures NoBlank(m) && 0 < |m| <= DETECTOR
  {
    MarkerShapes(m);
    assert m == DSML || m == ASCII_MARKER || m == MISSING_OPEN || m == MISSING_CLOSE;
  }

  lemma EndIsQuiet(x: bytes)
    requires MarkerFree(x)
    ensures !EndsInMarker(LastN(x, DETECTOR))
  {
    hide FindSub;
    forall m | m in MARKERS ensures !EndsWith(LastN(x, DETECTOR), m) {
      MarkersHaveNoBlank(m);
      if EndsWith(LastN(x, DETECTOR), m) {
        var k := |x| - |m|;
        assert x[k..] == m;
        FindSubNone(x, m);
      }
    }
  }

  // ---------------------------------------------------------------- openers

  const OPENERS: seq<bytes> := [START, MISSING_BAR_START, INVOKE_OPENER, MISSING_BAR_INVOKE]

  lemma OpenerBytes(o: bytes)
    requires o in OPENERS
    ensures 1 < |o| <= 22 && o[0] == LT && NoBlank(o) && forall k :: 0 < k < |o| ==> o[k] != LT
  {
    hide START, MISSING_BAR_START, INVOKE_OPENER, MISSING_BAR_INVOKE, DSML, MISSING_OPEN, TOOL_CALLS, INVOKE;
    LiteralsArePlain();
    OpenerLengths();
    OpenersCarryMarkers();
    MissingOpenBytes();
    assert forall k :: 0 <= k < |TOOL_CALLS + [GT]| ==> (TOOL_CALLS + [GT])[k] != LT && !IsBlank((TOOL_CALLS + [GT])[k]);
  }

  lemma MissingOpenBytes()
    ensures |MISSING_OPEN| > 1 && MISSING_OPEN[0] == LT && NoBlank(MISSING_OPEN)
    ensures forall k :: 0 < k < |MISSING_OPEN| ==> MISSING_OPEN[k] != LT
  {
  }

  /** A tail that matches is the start of an opener, and whole exactly as one. */
  lemma MatchShape(tail: bytes)
    ensures StartMatch(tail) != NoMatch ==> |tail| <= 22 && NoBlank(tail) && forall k :: 0 < k < |tail| ==> tail[k] != LT
    ensures StartMatch(tail).Whole? ==> tail in OPENERS
    ensures tail == [LT] ==> StartMatch(tail) == Prefix
    ensures forall k :: 0 < k < |START| && tail == START[..k] ==> StartMatch(tail) == Prefix
    ensures tail == START ==> StartMatch(tail) == Whole(false)
  {
    hide START, MISSING_BAR_START, INVOKE_OPENER, MISSING_BAR_INVOKE;
    OpenerBytes(START);
    OpenerBytes(MISSING_BAR_START);
    OpenerBytes(INVOKE_OPENER);
    OpenerBytes(MISSING_BAR_INVOKE);
  }

  /** A text that ends in an opener holds a marker. */
  lemma OpenerIsMarked(a: bytes, o: bytes)
    requires o in OPENERS
    ensures !MarkerFree(a + o)
  {
    hide FindSub, START, MISSING_BAR_START, INVOKE_OPENER, MISSING_BAR_INVOKE, DSML, MISSING_OPEN, MarkerFree;
    OpenersCarryMarkers();
    assert DSML in MARKERS && MISSING_OPEN in MARKERS;
    var t := a + o;
    if o == START {
      HoldsMarker(a + [LT], DSML, TOOL_CALLS + [GT]);
      assert t == a + [LT] + DSML + (TOOL_CALLS + [GT]);
    } else if o == INVOKE_OPENER {
      HoldsMarker(a + [LT], DSML, INVOKE);
      assert t == a + [LT] + DSML + INVOKE;
    } else if o == MISSING_BAR_START {
      HoldsMarker(a + [], MISSING_OPEN, TOOL_CALLS + [GT]);
      assert t == a + [] + MISSING_OPEN + (TOOL_CALLS + [GT]);
    } else {
      HoldsMarker(a + [], MISSING_OPEN, INVOKE);
      assert t == a + [] + MISSING_OPEN + INVOKE;
    }
  }

  lemma WholeIsMarked(a: bytes, tail: bytes)
    ensures StartMatch(tail).Whole? ==> !MarkerFree(a + tail)
  {
    hide StartMatch, MarkerFree;
    MatchShape(tail);
    if StartMatch(tail).Whole? { OpenerIsMarked(a, tail); }
  }

  // ---------------------------------------------------------------- states on the way

  /** No call has been started, and nothing rules one out. */
  ghost predicate Untouched(s: Display) {
    && s.parser == D.INIT && !s.dsmlActive && !s.dsmlIgnored && !s.dsmlInThink && |s.plainTail| <= DETECTOR
    && (s.startTail == [] || (StartMatch(s.startTail) == Prefix && s.startTail[0] == LT))
  }

  /** Thinking, with `seen` behind it. */
  ghost predicate Muses(s: Display, seen: bytes) {
    && Untouched(s) && s.inThink && !s.postThinkGap && s.thinkTail == LastN(seen, DETECTOR) && s.plainTail == []
    && |s.startTail| <= |seen| && seen[|seen| - |s.startTail|..] == s.startTail
  }

  /** Answering: of `text`, the prose without the blanks that were dropped, `shown` has been shown and the rest is held. */
  ghost predicate Tells(s: Display, shown: bytes, text: bytes) {
    Untouched(s) && !s.inThink && s.plainTail == LastN(shown, DETECTOR) && shown + s.startTail == text
  }

  /**
   * What is kept of prose read in the gap behind the closing think tag, with `held` held:
   * blanks are dropped up to the first byte that opens nothing.
   */
  function Kept(held: bytes, p: bytes): bytes
    decreases |p|
  {
    if p == [] then []
    else if IsBlank(p[0]) then Kept(held, p[1..])
    else if StartMatch(held + [p[0]]) == Prefix then [p[0]] + Kept(held + [p[0]], p[1..])
    else p
  }

  /** What a state keeps of the prose before it. */
  function Left(s: Display, p: bytes): bytes {
    if s.postThinkGap then Kept(s.startTail, p) else p
  }

  /** The byte is dropped in the gap. */
  predicate Dropped(s: Display, c: byte) {
    s.postThinkGap && IsBlank(c)
  }

  lemma SlideIsLast(tail: bytes, seen: bytes, c: byte)
    requires tail == LastN(seen, DETECTOR)
    ensures Slide(tail, c) == LastN(seen + [c], DETECTOR)
  {
  }

  // ---------------------------------------------------------------- thinking

  lemma {:induction false} FlushMusing(s: Display, bs: bytes)
    requires s.inThink && s.parser.core.phase != P.Failed
    ensures var t := FlushBytes(s, bs); t == s.(sink := t.sink)
    decreases |bs|
  {
    if bs != [] { FlushMusing(Emit(s, Char(bs[0])), bs[1..]); }
  }

  lemma MuseByte(s: Display, seen: bytes, c: byte)
    requires Muses(s, seen) && MarkerFree(seen + [c])
    ensures Muses(StreamByte(s, c), seen + [c])
  {
    hide FindSub, START, MISSING_BAR_START, INVOKE_OPENER, MISSING_BAR_INVOKE, EndsInMarker, FlushBytes, BeginCall, StartMatch, Slide, LastN, MarkerFree;
    EndIsQuiet(seen + [c]);
    SlideIsLast(s.thinkTail, seen, c);
    var n := NoteThinking(s, c);
    assert n == s.(thinkTail := LastN(seen + [c], DETECTOR));
    MatchShape(s.startTail);
    if n.startTail != [] || c == LT {
      MuseOpener(n, seen, c);
    }
  }

  lemma MuseOpener(s: Display, seen: bytes, c: byte)
    requires Untouched(s) && s.inThink && !s.postThinkGap && s.thinkTail == LastN(seen + [c], DETECTOR) && s.plainTail == []
    requires |s.startTail| <= |seen| && seen[|seen| - |s.startTail|..] == s.startTail && MarkerFree(seen + [c])
    requires s.startTail != [] || c == LT
    ensures Muses(OpenerByte(s, c), seen + [c])
  {
    hide FindSub, START, MISSING_BAR_START, INVOKE_OPENER, MISSING_BAR_INVOKE, FlushBytes, BeginCall, StartMatch, LastN, MarkerFree;
    MatchShape(s.startTail);
    var tail := s.startTail + [c];
    MatchShape(tail);
    MatchShape([LT]);
    var x := seen + [c];
    assert x[|x| - |tail|..] == tail;
    assert x == x[..|x| - |tail|] + tail;
    WholeIsMarked(x[..|x| - |tail|], tail);
    var t := s.(startTail := tail);
    match StartMatch(tail) {
      case Prefix =>
      case NoMatch =>
        if |tail| > 1 && c == LT {
          FlushMusing(t.(postThinkGap := false), tail[..|tail| - 1]);
          assert x[|x| - 1..] == [LT];
        } else {
          FlushMusing(t.(postThinkGap := false), tail);
        }
    }
  }

  // ---------------------------------------------------------------- answering

  lemma {:induction false} FlushTelling(s: Display, shown: bytes, bs: bytes)
    requires s.parser.core.phase != P.Failed && !s.inThink && !s.dsmlActive && !s.dsmlInThink
    requires s.plainTail == LastN(shown, DETECTOR) && MarkerFree(shown + bs)
    ensures var t := FlushBytes(s, bs); t == s.(sink := t.sink, plainTail := LastN(shown + bs, DETECTOR))
    decreases |bs|
  {
    hide FindSub, EndsInMarker, Slide, LastN, MarkerFree;
    if bs == [] {
      assert shown + bs == shown;
    } else {
      var next := shown + [bs[0]];
      assert shown + bs == next + bs[1..];
      FreePrefix(next, bs[1..]);
      EndIsQuiet(next);
      SlideIsLast(s.plainTail, shown, bs[0]);
      var t := NotePlain(Emit(s, Char(bs[0])), bs[0]);
      FlushTelling(t, next, bs[1..]);
    }
  }

  /** The gap behind thinking after one more byte. */
  ghost predicate GapGoesOn(s: Display, c: byte, t: Display) {
    if !s.postThinkGap then !t.postThinkGap
    else if IsBlank(c) then t.postThinkGap && t.startTail == s.startTail
    else if StartMatch(s.startTail + [c]) == Prefix then t.postThinkGap && t.startTail == s.startTail + [c]
    else !t.postThinkGap
  }

  lemma TellByte(s: Display, shown: bytes, text: bytes, c: byte) returns (next: bytes)
    requires Tells(s, shown, text) && (Dropped(s, c) || MarkerFree(text + [c]))
    ensures Tells(StreamByte(s, c), next, if Dropped(s, c) then text else text + [c]) && GapGoesOn(s, c, StreamByte(s, c))
  {
    hide FindSub, EndsInMarker, FlushBytes, StartMatch, Slide, LastN, MarkerFree, OpenerByte;
    if Dropped(s, c) {
      next := shown;
    } else if s.startTail != [] || c == LT {
      next := TellOpener(s, shown, text, c);
    } else {
      next := shown + [c];
      assert shown + [] == shown && next + [] == next;
      EndIsQuiet(next);
      SlideIsLast(s.plainTail, shown, c);
      OtherByte(c);
      assert [] + [c] == [c];
    }
  }

  /** Only `<` opens anything. */
  lemma OtherByte(c: byte)
    requires c != LT
    ensures StartMatch([c]) == NoMatch
  {
    hide START, MISSING_BAR_START, INVOKE_OPENER, MISSING_BAR_INVOKE;
    OpenerBytes(START);
    OpenerBytes(MISSING_BAR_START);
    OpenerBytes(INVOKE_OPENER);
    OpenerBytes(MISSING_BAR_INVOKE);
  }

  lemma TellOpener(s: Display, shown: bytes, text: bytes, c: byte) returns (next: bytes)
    requires Tells(s, shown, text) && MarkerFree(text + [c]) && (s.startTail != [] || c == LT) && !Dropped(s, c)
    ensures Tells(OpenerByte(s, c), next, text + [c]) && GapGoesOn(s, c, OpenerByte(s, c))
  {
    hide FindSub, EndsInMarker, FlushBytes, BeginCall, StartMatch, LastN, MarkerFree;
    MatchShape(s.startTail);
    MatchShape([LT]);
    var tail := s.startTail + [c];
    MatchShape(tail);
    var t := s.(startTail := tail);
    Associative(shown, s.startTail, [c]);
    WholeIsMarked(shown, tail);
    match StartMatch(tail) {
      case Prefix =>
        next := shown;
      case NoMatch =>
        if |tail| > 1 && c == LT {
          assert tail[..|tail| - 1] == s.startTail;
          next := text;
          FreePrefix(text, [c]);
          FlushTelling(t.(postThinkGap := false), shown, s.startTail);
        } else {
          next := text + [c];
          FlushTelling(t.(postThinkGap := false), shown, tail);
          assert next + [] == next;
        }
    }
  }

  /** The closing tag ends thinking without a trace of it in the answer. */
  lemma AnswerStarts(s: Display, seen: bytes)
    requires Muses(s, seen)
    ensures Tells(CloseThink(s), [], [])
    ensures forall p :: Left(CloseThink(s), p) == Kept([], p)
  {
    hide FlushBytes;
    FlushMusing(s.(postThinkGap := false), s.startTail);
  }

  // ---------------------------------------------------------------- a stanza begins

  lemma StartBytes()
    ensures |START| == 22 && START[0] == LT && NoBlank(START) && START[1] == 0xEF && forall k :: 0 < k < |START| ==> START[k] != LT
  {
  }

  /** Held text gives way to the start of the canonical opener. */
  lemma OpenerBegins(s: Display, shown: bytes, text: bytes)
    requires Tells(s, shown, text) && MarkerFree(text)
    ensures var t := StreamByte(s, LT); Untouched(t) && !t.inThink && t.startTail == [LT]
  {
    hide FindSub, START, MISSING_BAR_START, INVOKE_OPENER, MISSING_BAR_INVOKE, FlushBytes, BeginCall, StartMatch, LastN, MarkerFree;
    MatchShape(s.startTail);
    MatchShape([LT]);
    var tail := s.startTail + [LT];
    MatchShape(tail);
    var t := s.(startTail := tail);
    if s.startTail != [] {
      assert tail[|tail| - 1] == LT;
      assert tail[..|tail| - 1] == s.startTail;
      FlushTelling(t.(postThinkGap := false), shown, s.startTail);
    }
  }

  /** Holding the first bytes of the canonical opener, outside thinking. */
  ghost predicate Holding(s: Display, k: nat) {
    && 0 < k < |START| && s.startTail == START[..k] && |s.plainTail| <= DETECTOR
    && !s.dsmlActive && !s.dsmlIgnored && !s.dsmlInThink && !s.inThink && s.parser.core.phase != P.Failed
  }

  lemma OpenerGrows(s: Display, k: nat)
    requires Holding(s, k)
    ensures StreamByte(s, START[k]) == if k + 1 < |START| then s.(startTail := START[..k + 1])
                                       else BeginCall(s.(startTail := START), false)
  {
    hide START, StartMatch, BeginCall, GiveUp;
    StartBytes();
    assert START[..k] + [START[k]] == START[..k + 1];
    assert START[..|START|] == START;
    MatchShape(START[..k + 1]);
  }

  /** Inside the first stanza, with `v` behind its opener. */
  ghost predicate InStanza(s: Display, v: bytes) {
    && s.dsmlActive && !s.dsmlIgnored && !s.dsmlInThink && !s.inThink && s.startTail == []
    && !s.postThinkGap && |s.plainTail| <= DETECTOR
    && P.Active(s.parser.core) && D.Tracks(START + v, s.parser)
  }

  lemma StanzaBegins(s: Display)
    requires !s.inThink && !s.dsmlInThink && s.parser == D.INIT && |s.plainTail| <= DETECTOR
    ensures InStanza(BeginCall(s, false), [])
  {
    hide START, FindSub, P.Step;
    assert START + [] == START && START[0..] == START && START <= START;
    FindSubExact(START, START, 0);
    D.ParseNothing(START, D.BEGIN);
    assert [] + START == START;
  }

  // ---------------------------------------------------------------- a stanza runs

  /** The calls of a document wait to be run. */
  ghost predicate Ran(s: Display, d: R.Document) {
    && !s.dsmlActive && !s.dsmlIgnored && !s.dsmlInThink && !s.inThink && s.startTail == []
    && !s.postThinkGap && |s.plainTail| <= DETECTOR
    && s.parser.core.phase == P.Done && s.parser.core.calls == R.Calls(d.calls)
    && s.parser.core == D.Batch(R.Print(d)) && s.parser.raw == R.Print(d)
  }

  ghost predicate Writable(d: R.Document) {
    R.WellSpaced(d) && R.Printable(d)
  }

  lemma StanzaParses(d: R.Document)
    requires Writable(d)
    ensures START <= R.Print(d) && |R.Print(d)| > |START|
    ensures var c := D.Batch(R.Print(d)); c.phase == P.Done && c.calls == R.Calls(d.calls) && c.pos == |R.Print(d)|
  {
    hide START, R.PrintCalls, CloseWord, R.Calls, R.SeenCalls, FindSub, P.Parse;
    var text := R.Print(d);
    LiteralsArePlain();
    assert text[0..] == text;
    var chunks: seq<bytes> := [text];
    assert Concat(chunks) == text by { assert text + [] == text && chunks[1..] == []; }
    assert text == [] + (text + []);
    R.PrintThenFeed(d, [], [], chunks);
    D.StreamingIsBatch(chunks);
    R.SeenIsSame(R.Calls(d.calls));
    CloseWordShape(TOOL_CALLS, d.close);
  }

  /** A proper part of a printed document, from its opener on, is unfinished. */
  lemma PartIsActive(d: R.Document, w: bytes)
    requires Writable(d) && START <= w && w <= R.Print(d) && w != R.Print(d)
    ensures P.Active(D.Batch(w))
  {
    hide START, R.Print, P.Parse, FindSub, R.Calls;
    StanzaParses(d);
    var rest := R.Print(d)[|w|..];
    assert w + rest == R.Print(d);
    assert w[0..] == w;
    FindSubExact(w, START, 0);
    D.BatchResumes(w, rest);
    D.ParseStarted(w, D.BEGIN);
    assert D.Batch(w).pos <= |w| < |R.Print(d)|;
  }

  lemma StanzaByte(s: Display, v: bytes, c: byte, d: R.Document)
    requires Writable(d) && InStanza(s, v) && START + v + [c] <= R.Print(d)
    ensures var t := StreamByte(s, c);
      if START + v + [c] == R.Print(d) then Ran(t, d) else InStanza(t, v + [c])
  {
    hide START, R.Print, P.Parse, FindSub, R.Calls, D.FeedByte, D.Batch, D.ClosePrefix;
    var w := START + v + [c];
    assert w == START + (v + [c]);
    StanzaParses(d);
    D.FeedBytesTracks(START + v, s.parser, [c]);
    assert w[0..] == w && START <= w;
    FindSubExact(w, START, 0);
    if w != R.Print(d) { PartIsActive(d, w); }
  }

  // ---------------------------------------------------------------- driving the display

  /** Nothing has been decided yet. */
  ghost predicate Undecided(s: Display) {
    s.parser.core.phase != P.Done && s.parser.core.phase != P.Failed && !s.dsmlInThink
  }

  /** What a call does with a beginning of a text: at its end the calls wait, before it nothing is decided. */
  ghost predicate Leads(s: Display, u: bytes, whole: bytes, d: R.Document) {
    var (r, held) := Drive(DISPLAY_MACHINE, s, u, false);
    if u == whole then Ran(r, d) && held == [] else Undecided(r)
  }

  lemma LeadsStep(s: Display, u: bytes, whole: bytes, d: R.Document)
    requires u != [] && u <= whole
    requires s.dsmlActive || (!(THINK_OPEN <= u) && !(THINK_CLOSE <= u) && !HeldBack(u))
    requires Leads(StreamByte(s, u[0]), u[1..], whole[1..], d)
    ensures Leads(s, u, whole, d)
  {
    hide THINK_OPEN, THINK_CLOSE, HeldBack, StreamByte, Ran, Undecided;
    assert u == whole <==> u[1..] == whole[1..] by {
      assert u == [u[0]] + u[1..] && whole == [whole[0]] + whole[1..] && u[0] == whole[0];
    }
  }

  lemma LeadsNothing(s: Display, whole: bytes, d: R.Document)
    requires Undecided(s) && whole != []
    ensures Leads(s, [], whole, d)
  {
  }

  lemma LeadsDone(s: Display, d: R.Document)
    requires Ran(s, d)
    ensures Leads(s, [], [], d)
  {
  }

  lemma LeadsHeld(s: Display, u: bytes, whole: bytes, d: R.Document)
    requires Undecided(s) && !s.dsmlActive && HeldBack(u) && |whole| >= 8
    ensures Leads(s, u, whole, d)
  {
    hide Ran, Undecided;
    HeldIsShort(u);
    HeldStops(s, u);
  }

  lemma {:induction false} DriveStanza(s: Display, v: bytes, u: bytes, rest: bytes, d: R.Document)
    requires Writable(d) && InStanza(s, v) && START + v + rest == R.Print(d) && rest != [] && u <= rest
    ensures Leads(s, u, rest, d)
    decreases |u|
  {
    hide THINK_OPEN, THINK_CLOSE, HeldBack, StreamByte, START, R.Print, D.Tracks, R.WellSpaced, R.Printable, Leads;
    if u == [] {
      LeadsNothing(s, rest, d);
    } else {
      var c := u[0];
      assert c == rest[0] && rest == [c] + rest[1..];
      assert START + v + [c] <= R.Print(d) by { assert START + v + [c] == R.Print(d)[..|START + v| + 1]; }
      StanzaByte(s, v, c, d);
      var t := StreamByte(s, c);
      if rest[1..] == [] {
        assert START + v + [c] == R.Print(d);
        LeadsDone(t, d);
        assert u[1..] == [];
      } else {
        assert START + (v + [c]) + rest[1..] == R.Print(d);
        assert |START + v + [c]| < |R.Print(d)|;
        DriveStanza(t, v + [c], u[1..], rest[1..], d);
      }
      LeadsStep(s, u, rest, d);
    }
  }

  lemma NotHeld(u: bytes)
    requires u != [] && u[0] != LT
    ensures !(THINK_OPEN <= u) && !(THINK_CLOSE <= u) && !HeldBack(u)
  {
  }

  lemma OpenerText(text: bytes, k: nat, rest: bytes)
    requires START <= text && |text| > |START| && k < |START| && START[..k] + rest == text
    ensures rest != [] && rest[0] == START[k] && START[..k + 1] + rest[1..] == text
    ensures k + 1 == |START| ==> rest[1..] != [] && START + [] + rest[1..] == text
  {
    hide START;
    assert rest[0] == text[k] == START[k];
    assert START[..k + 1] == START[..k] + [rest[0]];
    assert START[..|START|] == START && START + [] == START;
  }

  lemma OpenerEnds(s: Display, u: bytes, rest: bytes, d: R.Document)
    requires Writable(d) && Holding(s, |START| - 1) && s.parser == D.INIT
    requires rest != [] && START + [] + rest == R.Print(d) && u <= rest
    ensures Leads(StreamByte(s, START[|START| - 1]), u, rest, d)
  {
    hide StreamByte, START, R.Print, D.Tracks, Writable, BeginCall, Leads;
    OpenerGrows(s, |START| - 1);
    StanzaBegins(s.(startTail := START));
    DriveStanza(BeginCall(s.(startTail := START), false), [], u, rest, d);
  }

  lemma {:induction false} DriveOpener(s: Display, k: nat, u: bytes, rest: bytes, d: R.Document)
    requires Writable(d) && Holding(s, k) && s.parser == D.INIT && START[..k] + rest == R.Print(d) && u <= rest
    ensures Leads(s, u, rest, d)
    decreases |u|
  {
    hide THINK_OPEN, THINK_CLOSE, HeldBack, StreamByte, START, R.Print, Writable, BeginCall, Leads;
    StartBytes();
    StanzaParses(d);
    OpenerText(R.Print(d), k, rest);
    if u == [] {
      LeadsNothing(s, rest, d);
    } else {
      NotHeld(u);
      if k + 1 < |START| {
        OpenerGrows(s, k);
        DriveOpener(StreamByte(s, u[0]), k + 1, u[1..], rest[1..], d);
      } else {
        OpenerEnds(s, u[1..], rest[1..], d);
      }
      LeadsStep(s, u, rest, d);
    }
  }

  /** In front of a text that starts with `<`, a text without the tag holds no start of one. */
  lemma TagStaysOut(tag: bytes, p: bytes, rest: bytes, u: bytes)
    requires p != [] && rest != [] && rest[0] == LT && u <= p + rest && !(tag <= p)
    requires forall k :: 0 < k < |tag| ==> tag[k] != LT
    ensures !(tag <= u)
  {
    var n := if |u| < |p| then |u| else |p|;
    assert u[..n] == p[..n];
    if |u| > |p| { assert u[|p|] == (p + rest)[|p|] == LT; }
  }

  lemma NoTagStarts(p: bytes, rest: bytes, u: bytes)
    requires TagFree(p) && p != [] && rest != [] && rest[0] == LT && u <= p + rest
    ensures !(THINK_OPEN <= u) && !(THINK_CLOSE <= u)
  {
    hide FindSub;
    FindSubNone(p, THINK_OPEN);
    FindSubNone(p, THINK_CLOSE);
    assert p[0..] == p;
    TagStaysOut(THINK_OPEN, p, rest, u);
    TagStaysOut(THINK_CLOSE, p, rest, u);
  }

  lemma TagFreeTail(p: bytes)
    requires TagFree(p) && p != []
    ensures TagFree(p[1..])
  {
    hide FindSub;
    FindSubNone(p, THINK_OPEN);
    FindSubNone(p, THINK_CLOSE);
    assert forall k :: 0 <= k <= |p[1..]| ==> p[1..][k..] == p[k + 1..];
    FindSubNone(p[1..], THINK_OPEN);
    FindSubNone(p[1..], THINK_CLOSE);
  }

  lemma HeldIsShort(u: bytes)
    requires HeldBack(u)
    ensures |u| < 8
  {
  }

  /** The first byte of a beginning of a text. */
  lemma FirstOf(p: bytes, rest: bytes, u: bytes, seen: bytes)
    requires p != [] && u != [] && u <= p + rest
    ensures u[0] == p[0] && (p + rest)[0] == p[0] && (p + rest)[1..] == p[1..] + rest && u[1..] <= p[1..] + rest
    ensures seen + p == seen + [p[0]] + p[1..]
  {
    assert p == [p[0]] + p[1..];
    assert (p + rest)[1..] == p[1..] + rest;
    assert u[1..] == (p + rest)[1..][..|u| - 1];
  }

  lemma TellsUndecided(s: Display, shown: bytes, text: bytes)
    requires Tells(s, shown, text)
    ensures Undecided(s) && !s.dsmlActive
  {
  }

  lemma MusesUndecided(s: Display, seen: bytes)
    requires Muses(s, seen)
    ensures Undecided(s) && !s.dsmlActive
  {
  }

  /** Printed calls right behind the prose. */
  lemma DriveCalls(s: Display, shown: bytes, text: bytes, u: bytes, d: R.Document)
    requires Writable(d) && Tells(s, shown, text) && MarkerFree(text) && u <= R.Print(d) && u != [] && !HeldBack(u)
    ensures Leads(s, u, R.Print(d), d)
  {
    hide THINK_OPEN, THINK_CLOSE, HeldBack, StreamByte, START, R.Print, Writable, MarkerFree, LastN, Leads;
    StartBytes();
    StanzaParses(d);
    var whole := R.Print(d);
    assert u[0] == whole[0] == START[0];
    OpenerBegins(s, shown, text);
    assert START[..1] == [LT] && whole == [LT] + whole[1..];
    NoTagAtStart(u, whole);
    DriveOpener(StreamByte(s, LT), 1, u[1..], whole[1..], d);
    LeadsStep(s, u, whole, d);
  }

  /** One byte of prose moves from what is to come to what has been read, unless it is dropped. */
  lemma LeftStep(s: Display, text: bytes, p: bytes, t: Display)
    requires p != [] && GapGoesOn(s, p[0], t) && MarkerFree(text + Left(s, p))
    ensures var c := p[0]; var read := if Dropped(s, c) then text else text + [c];
      text + Left(s, p) == read + Left(t, p[1..]) && (Dropped(s, c) || MarkerFree(read))
  {
    hide MarkerFree, StartMatch;
    var c := p[0];
    assert p == [c] + p[1..];
    if !Dropped(s, c) {
      Associative(text, [c], Left(t, p[1..]));
      FreePrefix(text + [c], Left(t, p[1..]));
    }
  }

  lemma PrintBegins(d: R.Document)
    requires Writable(d)
    ensures |R.Print(d)| >= 8 && R.Print(d)[0] == LT
  {
    hide R.Print, START;
    StartBytes();
    StanzaParses(d);
  }

  lemma {:induction false} DriveProse(s: Display, shown: bytes, text: bytes, p: bytes, u: bytes, d: R.Document)
    requires Writable(d) && Tells(s, shown, text) && MarkerFree(text + Left(s, p)) && TagFree(p) && u <= p + R.Print(d)
    ensures Leads(s, u, p + R.Print(d), d)
    decreases |u|
  {
    hide *;
    PrintBegins(d);
    TellsUndecided(s, shown, text);
    var whole := p + R.Print(d);
    if u == [] {
      LeadsNothing(s, whole, d);
    } else if HeldBack(u) {
      LeadsHeld(s, u, whole, d);
    } else if p == [] {
      assert whole == R.Print(d);
      NothingLeftOver(s);
      assert text + [] == text;
      DriveCalls(s, shown, text, u, d);
    } else {
      FirstOf(p, R.Print(d), u, text);
      FirstLeft(s, text, p);
      var next := TellByte(s, shown, text, p[0]);
      LeftStep(s, text, p, StreamByte(s, p[0]));
      TagFreeTail(p);
      NoTagStarts(p, R.Print(d), u);
      DriveProse(StreamByte(s, p[0]), next, if Dropped(s, p[0]) then text else text + [p[0]], p[1..], u[1..], d);
      LeadsStep(s, u, whole, d);
    }
  }

  lemma NothingLeftOver(s: Display)
    ensures Left(s, []) == []
  {
  }

  lemma FirstLeft(s: Display, text: bytes, p: bytes)
    requires p != [] && MarkerFree(text + Left(s, p))
    ensures Dropped(s, p[0]) || MarkerFree(text + [p[0]])
  {
    hide MarkerFree, StartMatch;
    if !Dropped(s, p[0]) {
      var rest := Left(s, p)[1..];
      assert Left(s, p) == [p[0]] + rest;
      Associative(text, [p[0]], rest);
      FreePrefix(text + [p[0]], rest);
    }
  }

  lemma NoTagAtStart(u: bytes, text: bytes)
    requires START <= text && u <= text && !HeldBack(u)
    ensures !(THINK_OPEN <= u) && !(THINK_CLOSE <= u)
  {
    StartBytes();
    if |u| > 1 { assert u[1] == text[1] == START[1]; }
  }

  lemma HeldStops(s: Display, u: bytes)
    requires HeldBack(u) && !s.dsmlActive
    ensures Drive(DISPLAY_MACHINE, s, u, false) == (s, u)
  {
    if THINK_OPEN <= u || THINK_CLOSE <= u { TagNotHeld(u); }
  }

  lemma DriveClosing(s: Display, seen: bytes, p: bytes, u: bytes, d: R.Document)
    requires Writable(d) && Muses(s, seen) && MarkerFree(Kept([], p)) && TagFree(p)
    requires u != [] && !HeldBack(u) && u <= THINK_CLOSE + (p + R.Print(d))
    ensures Leads(s, u, THINK_CLOSE + (p + R.Print(d)), d)
  {
    hide THINK_OPEN, THINK_CLOSE, HeldBack, R.Print, Writable, MarkerFree, LastN, TagFree, CloseThink, Leads, Left, Kept, Tells, Muses;
    var whole := THINK_CLOSE + (p + R.Print(d));
    CloseOrHeld(u, p + R.Print(d));
    MusesUndecided(s, seen);
    AnswerStarts(s, seen);
    assert whole[|THINK_CLOSE|..] == p + R.Print(d);
    assert [] + Kept([], p) == Kept([], p);
    DriveProse(CloseThink(s), [], [], p, u[|THINK_CLOSE|..], d);
    LeadsClose(s, u, whole, d);
  }

  lemma {:induction false} DriveThinking(s: Display, seen: bytes, th: bytes, p: bytes, u: bytes, d: R.Document)
    requires Writable(d) && Muses(s, seen) && MarkerFree(seen + th) && TagFree(th)
    requires MarkerFree(Kept([], p)) && TagFree(p) && u <= th + (THINK_CLOSE + (p + R.Print(d)))
    ensures Leads(s, u, th + (THINK_CLOSE + (p + R.Print(d))), d)
    decreases |u|
  {
    hide *;
    TagLengths();
    PrintBegins(d);
    MusesUndecided(s, seen);
    var rest := THINK_CLOSE + (p + R.Print(d));
    var whole := th + rest;
    if u == [] {
      LeadsNothing(s, whole, d);
    } else if HeldBack(u) {
      LeadsHeld(s, u, whole, d);
    } else if th == [] {
      assert whole == rest;
      DriveClosing(s, seen, p, u, d);
    } else {
      FirstOf(th, rest, u, seen);
      FreePrefix(seen + [th[0]], th[1..]);
      MuseByte(s, seen, th[0]);
      TagFreeTail(th);
      CloseStarts(p + R.Print(d));
      NoTagStarts(th, rest, u);
      DriveThinking(StreamByte(s, th[0]), seen + [th[0]], th[1..], p, u[1..], d);
      LeadsStep(s, u, whole, d);
    }
  }

  lemma LeadsClose(s: Display, u: bytes, whole: bytes, d: R.Document)
    requires !s.dsmlActive && THINK_CLOSE <= u && u <= whole
    requires Leads(CloseThink(s), u[|THINK_CLOSE|..], whole[|THINK_CLOSE|..], d)
    ensures Leads(s, u, whole, d)
  {
    hide CloseThink, Ran, Undecided;
    TagNotHeld(u);
    TagLengths();
    assert u == THINK_CLOSE + u[|THINK_CLOSE|..] && whole == THINK_CLOSE + whole[|THINK_CLOSE|..];
  }

  lemma CloseStarts(rest: bytes)
    ensures (THINK_CLOSE + rest)[0] == LT
  {
  }

  /** A beginning of a closing tag is held back unless it is all there. */
  lemma CloseOrHeld(u: bytes, rest: bytes)
    requires u != [] && u <= THINK_CLOSE + rest && !HeldBack(u)
    ensures THINK_CLOSE <= u && u[|THINK_CLOSE|..] <= rest
  {
    TagLengths();
    var t := THINK_CLOSE + rest;
    var n := if |u| < |THINK_CLOSE| then |u| else |THINK_CLOSE|;
    assert u[..n] == t[..n] == THINK_CLOSE[..n];
    assert u[0] == THINK_CLOSE[0] == LT;
    assert u[|THINK_CLOSE|..] == t[|THINK_CLOSE|..|u|] && t[|THINK_CLOSE|..] == rest;
  }

  // ---------------------------------------------------------------- the round

  /** Ordinary text in front of the calls: thinking that closes, if the answer thinks, and prose. */
  function Preface(thinking: bool, th: bytes, prose: bytes): bytes {
    if thinking then th + (THINK_CLOSE + prose) else prose
  }

  /** Neither the thinking nor the prose, without the blanks dropped right behind the closing tag, shows a tag or a marker. */
  ghost predicate Ordinary(thinking: bool, th: bytes, prose: bytes) {
    && (thinking ==> TagFree(th) && MarkerFree(th))
    && TagFree(prose) && MarkerFree(if thinking then Kept([], prose) else prose)
  }

  lemma NewIsUntouched(thinking: bool)
    ensures thinking ==> Muses(NEW.(inThink := thinking), [])
    ensures !thinking ==> Tells(NEW.(inThink := thinking), [], [])
  {
    hide StartMatch, IsBlank;
  }

  lemma ThinkingLeads(s: Display, th: bytes, prose: bytes, u: bytes, d: R.Document)
    requires Writable(d) && Ordinary(true, th, prose) && u <= Preface(true, th, prose) + R.Print(d) && Muses(s, [])
    ensures Leads(s, u, Preface(true, th, prose) + R.Print(d), d)
  {
    hide R.Print, Writable, MarkerFree, TagFree, Leads, THINK_CLOSE, Muses, Kept;
    assert [] + th == th;
    assert Preface(true, th, prose) + R.Print(d) == th + (THINK_CLOSE + (prose + R.Print(d)));
    DriveThinking(s, [], th, prose, u, d);
  }

  lemma PlainLeads(s: Display, th: bytes, prose: bytes, u: bytes, d: R.Document)
    requires Writable(d) && Ordinary(false, th, prose) && u <= Preface(false, th, prose) + R.Print(d) && Tells(s, [], []) && !s.postThinkGap
    ensures Leads(s, u, Preface(false, th, prose) + R.Print(d), d)
  {
    hide R.Print, Writable, MarkerFree, TagFree, Leads, Tells, Kept;
    assert [] + Left(s, prose) == prose;
    DriveProse(s, [], [], prose, u, d);
  }

  /** The answer text, read up to any point. */
  lemma AnswerLeads(thinking: bool, th: bytes, prose: bytes, u: bytes, d: R.Document)
    requires Writable(d) && Ordinary(thinking, th, prose) && u <= Preface(thinking, th, prose) + R.Print(d)
    ensures Leads(NEW.(inThink := thinking), u, Preface(thinking, th, prose) + R.Print(d), d)
  {
    hide R.Print, Writable, Ordinary, Preface, Leads, Muses, Tells;
    NewIsUntouched(thinking);
    var s := NEW.(inThink := thinking);
    if thinking {
      ThinkingLeads(s, th, prose, u, d);
    } else {
      PlainLeads(s, th, prose, u, d);
    }
  }

  /** The pieces of passes that only decode text. */
  function Pieces(passes: seq<Pass>): seq<Piece> {
    if passes == [] then [] else (if passes[0].Batch? then passes[0].pieces else []) + Pieces(passes[1..])
  }

  function Texts(pieces: seq<Piece>): seq<bytes> {
    if pieces == [] then [] else (if pieces[0].Text? then [pieces[0].text] else []) + Texts(pieces[1..])
  }

  predicate AllText(passes: seq<Pass>) {
    forall p :: p in passes ==> p.Batch? && OnlyText(p.pieces)
  }

  lemma {:induction false} ConcatSplits(a: seq<bytes>, b: seq<bytes>)
    ensures Concat(a + b) == Concat(a) + Concat(b)
  {
    if a == [] {
      assert a + b == b && [] + Concat(b) == Concat(b);
    } else {
      assert (a + b)[1..] == a[1..] + b;
      ConcatSplits(a[1..], b);
      Associative(a[0], Concat(a[1..]), Concat(b));
    }
  }

  lemma {:induction false} TextsSplit(a: seq<Piece>, b: seq<Piece>)
    ensures Texts(a + b) == Texts(a) + Texts(b)
  {
    if a == [] {
      assert a + b == b;
    } else {
      assert (a + b)[1..] == a[1..] + b;
      TextsSplit(a[1..], b);
    }
  }

  lemma RecordAdds(l: Loop, text: bytes)
    ensures var r := Record(l, text);
      r.transcript == l.transcript + [text] && r.gotTool == l.gotTool && r.malformed == l.malformed && r.broken == l.broken
  {
    hide StreamText;
  }

  /** One token of a batch. */
  lemma BatchStep(l: Loop, pieces: seq<Piece>, max: nat)
    ensures pieces == [] ==> DecodeBatch(l, pieces, max) == (l, false)
    ensures pieces != [] && pieces[0].Eos? ==> DecodeBatch(l, pieces, max) == (l, true)
    ensures pieces != [] && pieces[0].Text? ==>
              var r := Record(l, pieces[0].text);
              DecodeBatch(l, pieces, max) == if |r.transcript| >= max then (r, true) else DecodeBatch(r, pieces[1..], max)
  {
    hide Record;
  }

  lemma TextsStep(pieces: seq<Piece>)
    ensures pieces == [] ==> Texts(pieces) == []
    ensures pieces != [] && pieces[0].Text? ==> Texts(pieces) == [pieces[0].text] + Texts(pieces[1..])
  {
  }

  predicate OnlyText(pieces: seq<Piece>) {
    forall q :: q in pieces ==> q.Text?
  }

  lemma OnlyTextStep(pieces: seq<Piece>)
    requires OnlyText(pieces) && pieces != []
    ensures pieces[0].Text? && OnlyText(pieces[1..])
  {
    assert pieces[0] in pieces && forall q :: q in pieces[1..] ==> q in pieces;
  }

  lemma {:induction false} BatchRecords(l: Loop, pieces: seq<Piece>, max: nat)
    requires OnlyText(pieces) && |l.transcript| + |pieces| < max
    ensures var (r, stop) := DecodeBatch(l, pieces, max);
      && !stop && r.transcript == l.transcript + Texts(pieces) && |r.transcript| == |l.transcript| + |pieces|
      && r.gotTool == l.gotTool && r.malformed == l.malformed && r.broken == l.broken
    decreases |pieces|
  {
    hide *;
    BatchStep(l, pieces, max);
    TextsStep(pieces);
    if pieces == [] {
      assert l.transcript + [] == l.transcript;
    } else {
      OnlyTextStep(pieces);
      var r := Record(l, pieces[0].text);
      RecordAdds(l, pieces[0].text);
      BatchRecords(r, pieces[1..], max);
      assert r.transcript + Texts(pieces[1..]) == l.transcript + ([pieces[0].text] + Texts(pieces[1..]));
    }
  }

  /** The display after the recorded tokens is the display after their text. */
  lemma RecordedLeads(thinking: bool, l: Loop, whole: bytes, d: R.Document)
    requires Streamed(thinking, l) && Leads(NEW.(inThink := thinking), Concat(l.transcript), whole, d)
    ensures if Concat(l.transcript) == whole then Ran(l.display, d) && l.held == [] else Undecided(l.display)
  {
    hide DISPLAY_MACHINE, Drive, Ran, Undecided, StreamText, StreamChunks;
    var s := NEW.(inThink := thinking);
    StreamChunksIsDriveChunks(s, [], l.transcript);
    ChunksAreOne(DISPLAY_MACHINE, s, [], l.transcript);
    assert [] + Concat(l.transcript) == Concat(l.transcript);
  }

  lemma LimitStops(l: Loop, passes: seq<Pass>, max: nat)
    ensures |l.transcript| >= max ==> Decode(l, passes, max) == l
  {
  }

  /** One pass of a proper part of the answer is recorded without a decision. */
  lemma FrontPass(thinking: bool, l: Loop, pieces: seq<Piece>, more: seq<bytes>, passes: seq<Pass>, max: nat,
                  th: bytes, prose: bytes, d: R.Document)
    requires Writable(d) && Ordinary(thinking, th, prose) && Streamed(thinking, l) && Fresh(l)
    requires OnlyText(pieces) && |l.transcript| + |pieces| < max
    requires passes != [] && passes[0] == Batch(pieces)
    requires var whole := Preface(thinking, th, prose) + R.Print(d); var text := Concat(l.transcript + (Texts(pieces) + more));
      text <= whole && |text| < |whole|
    ensures var r := DecodeBatch(l, pieces, max).0;
      && Streamed(thinking, r) && Fresh(r) && Decode(l, passes, max) == Decode(r, passes[1..], max)
      && r.transcript == l.transcript + Texts(pieces) && |r.transcript| == |l.transcript| + |pieces|
      && l.transcript + (Texts(pieces) + more) == r.transcript + more
  {
    hide R.Print, Writable, Ordinary, Streamed, Preface, DecodeBatch, Concat, Texts;
    BatchRecords(l, pieces, max);
    DecodeBatchStreams(thinking, l, pieces, max);
    var r := DecodeBatch(l, pieces, max).0;
    assert l.transcript + (Texts(pieces) + more) == r.transcript + more;
    PartUndecided(thinking, r, more, th, prose, d);
  }

  /** A pass that reaches the limit ends the loop without a tool. */
  lemma LimitPass(l: Loop, pieces: seq<Piece>, passes: seq<Pass>, max: nat)
    requires Fresh(l) && OnlyText(pieces) && |l.transcript| < max <= |l.transcript| + |pieces|
    requires passes != [] && passes[0] == Batch(pieces)
    ensures !Decode(l, passes, max).gotTool
  {
    hide DecodeBatch;
    BatchStops(l, pieces, false, max);
    assert LastBatch(pieces, false) == pieces;
  }

  /** Passes whose text is a proper part of the answer are decoded to their end, or up to the limit, without a decision. */
  lemma {:induction false} FrontPasses(thinking: bool, l: Loop, front: seq<Pass>, later: seq<Pass>, max: nat,
                                       th: bytes, prose: bytes, d: R.Document) returns (r: Loop)
    requires Writable(d) && Ordinary(thinking, th, prose) && Streamed(thinking, l) && Fresh(l) && AllText(front)
    requires var whole := Preface(thinking, th, prose) + R.Print(d); var text := Concat(l.transcript + Texts(Pieces(front)));
      text <= whole && |text| < |whole|
    ensures |l.transcript| + |Pieces(front)| >= max ==> !Decode(l, front + later, max).gotTool
    ensures |l.transcript| + |Pieces(front)| < max ==>
              && Decode(l, front + later, max) == Decode(r, later, max) && Streamed(thinking, r) && Fresh(r)
              && r.transcript == l.transcript + Texts(Pieces(front)) && |r.transcript| == |l.transcript| + |Pieces(front)|
    decreases |front|
  {
    hide R.Print, Writable, Ordinary, Streamed, Preface, Decode, DecodeBatch, Concat, Texts;
    r := l;
    LimitStops(l, front + later, max);
    if front == [] {
      assert front + later == later;
      NoTexts();
      assert l.transcript + [] == l.transcript;
    } else if |l.transcript| < max {
      var pieces := front[0].pieces;
      assert front[0] in front && (front + later)[0] == front[0] && (front + later)[1..] == front[1..] + later;
      assert forall p :: p in front[1..] ==> p in front;
      if |l.transcript| + |pieces| < max {
        TextsSplit(pieces, Pieces(front[1..]));
        FrontPass(thinking, l, pieces, Texts(Pieces(front[1..])), front + later, max, th, prose, d);
        r := FrontPasses(thinking, DecodeBatch(l, pieces, max).0, front[1..], later, max, th, prose, d);
      } else {
        LimitPass(l, pieces, front + later, max);
      }
    }
  }

  /** Nothing has ended the loop. */
  predicate Fresh(l: Loop) {
    !l.gotTool && !l.malformed && !l.broken
  }

  lemma NoTexts()
    ensures Texts([]) == []
  {
  }

  lemma PartUndecided(thinking: bool, r: Loop, more: seq<bytes>, th: bytes, prose: bytes, d: R.Document)
    requires Writable(d) && Ordinary(thinking, th, prose) && Streamed(thinking, r)
    requires var whole := Preface(thinking, th, prose) + R.Print(d);
      Concat(r.transcript + more) <= whole && |Concat(r.transcript + more)| < |whole|
    ensures Undecided(r.display)
  {
    hide R.Print, Writable, Ordinary, Leads, Ran, Streamed, Preface, Concat;
    var whole := Preface(thinking, th, prose) + R.Print(d);
    ConcatSplits(r.transcript, more);
    AnswerLeads(thinking, th, prose, Concat(r.transcript), d);
    RecordedLeads(thinking, r, whole, d);
  }

  /** The last batch: text, and the end token if the model sent it. */
  function LastBatch(pieces: seq<Piece>, end: bool): seq<Piece> {
    pieces + (if end then [Eos] else [])
  }

  lemma LastBatchSteps(pieces: seq<Piece>, end: bool)
    ensures pieces == [] ==> LastBatch(pieces, end) == if end then [Eos] else []
    ensures pieces != [] ==>
              LastBatch(pieces, end) != [] && LastBatch(pieces, end)[0] == pieces[0]
              && LastBatch(pieces, end)[1..] == LastBatch(pieces[1..], end)
  {
  }

  /** A batch that reaches the limit or the end token stops the loop. */
  lemma {:induction false} BatchStops(l: Loop, pieces: seq<Piece>, end: bool, max: nat)
    requires OnlyText(pieces) && |l.transcript| < max && (end || |l.transcript| + |pieces| >= max)
    ensures var (r, stop) := DecodeBatch(l, LastBatch(pieces, end), max);
      stop && r.gotTool == l.gotTool && r.malformed == l.malformed && r.broken == l.broken
    decreases |pieces|
  {
    hide *;
    LastBatchSteps(pieces, end);
    BatchStep(l, LastBatch(pieces, end), max);
    if pieces != [] {
      OnlyTextStep(pieces);
      RecordAdds(l, pieces[0].text);
      var r := Record(l, pieces[0].text);
      if |r.transcript| < max { BatchStops(r, pieces[1..], end, max); }
    }
  }

  /** Up to the limit all its text is recorded. */
  lemma {:induction false} BatchKeeps(l: Loop, pieces: seq<Piece>, end: bool, max: nat)
    requires OnlyText(pieces) && |l.transcript| < max && |l.transcript| + |pieces| <= max
    ensures DecodeBatch(l, LastBatch(pieces, end), max).0.transcript == l.transcript + Texts(pieces)
    decreases |pieces|
  {
    hide *;
    LastBatchSteps(pieces, end);
    BatchStep(l, LastBatch(pieces, end), max);
    TextsStep(pieces);
    if pieces == [] {
      assert l.transcript + [] == l.transcript;
    } else {
      OnlyTextStep(pieces);
      RecordAdds(l, pieces[0].text);
      var r := Record(l, pieces[0].text);
      assert r.transcript + Texts(pieces[1..]) == l.transcript + ([pieces[0].text] + Texts(pieces[1..]));
      if |r.transcript| < max { BatchKeeps(r, pieces[1..], end, max); } else { LastText(pieces); }
    }
  }

  lemma LastText(pieces: seq<Piece>)
    requires |pieces| > 0 && pieces[0].Text?
    ensures |pieces| == 1 ==> Texts(pieces) == [pieces[0].text]
  {
    if |pieces| == 1 { assert pieces[1..] == []; }
  }

  lemma RanFinishes(s: Display, d: R.Document)
    requires Ran(s, d)
    ensures StreamText(s, [], [], true).0 == s.(postThinkGap := false)
  {
    var nothing: bytes := [];
    assert nothing + nothing == nothing;
  }

  // ---------------------------------------------------------------- text behind the calls

  /** Behind a finished stanza a text leaves these calls to be run, also when the answer is finished. */
  ghost predicate Leaves(s: Display, tail: bytes, calls: seq<P.Call>) {
    var (t, held) := Drive(DISPLAY_MACHINE, s, tail, false);
    var f := StreamText(t, held, [], true).0;
    && t.parser.core.phase == P.Done && !t.dsmlInThink
    && f.parser.core.phase == P.Done && !f.dsmlInThink && f.parser.core.calls == calls
  }

  ghost predicate AlwaysLeaves(d: R.Document, tail: bytes, calls: seq<P.Call>) {
    forall s: Display :: Ran(s, d) ==> Leaves(s, tail, calls)
  }

  lemma RecordedLeaves(thinking: bool, l: Loop, th: bytes, prose: bytes, d: R.Document, tail: bytes, calls: seq<P.Call>)
    requires Writable(d) && Ordinary(thinking, th, prose) && Streamed(thinking, l) && AlwaysLeaves(d, tail, calls)
    requires Concat(l.transcript) == Preface(thinking, th, prose) + R.Print(d) + tail
    ensures var f := StreamText(l.display, l.held, [], true).0;
      && l.display.parser.core.phase == P.Done && !l.display.dsmlInThink
      && f.parser.core.phase == P.Done && !f.dsmlInThink && f.parser.core.calls == calls
  {
    hide DISPLAY_MACHINE, Drive, Ran, Undecided, StreamText, StreamChunks, R.Print, Writable, Ordinary, Preface;
    var s := NEW.(inThink := thinking);
    var whole := Preface(thinking, th, prose) + R.Print(d);
    StreamChunksIsDriveChunks(s, [], l.transcript);
    ChunksAreOne(DISPLAY_MACHINE, s, [], l.transcript);
    assert [] + Concat(l.transcript) == Concat(l.transcript);
    AnswerLeads(thinking, th, prose, whole, d);
    DriveSplits(DISPLAY_MACHINE, s, whole, tail, false);
    assert [] + tail == tail;
    assert Leaves(Drive(DISPLAY_MACHINE, s, whole, false).0, tail, calls);
  }

  lemma BeginStreams(thinking: bool)
    ensures Streamed(thinking, Begin(thinking)) && Fresh(Begin(thinking)) && Begin(thinking).transcript == []
  {
  }

  /** The last batch decides: its calls run if it ends in time, and are dropped if the end token or the limit stops it. */
  lemma LastDecides(thinking: bool, l: Loop, pieces: seq<Piece>, end: bool, rest: seq<Pass>, max: nat,
                    th: bytes, prose: bytes, d: R.Document, tail: bytes, calls: seq<P.Call>)
    requires Writable(d) && Ordinary(thinking, th, prose) && Streamed(thinking, l) && Fresh(l) && AlwaysLeaves(d, tail, calls)
    requires OnlyText(pieces) && |l.transcript| < max
    requires Concat(l.transcript + Texts(pieces)) == Preface(thinking, th, prose) + R.Print(d) + tail
    ensures var r := Decode(l, [Batch(LastBatch(pieces, end))] + rest, max); var n := |l.transcript| + |pieces|;
      && (!end && n < max ==> Decide(r, StreamText(r.display, r.held, [], true).0, false) == RunTools(calls))
      && (end || n >= max ==> !r.gotTool)
      && ((end && n < max) || n == max ==> Decide(r, StreamText(r.display, r.held, [], true).0, false) == Idle)
  {
    hide R.Print, Writable, Ordinary, Streamed, Preface, DecodeBatch, Concat, Texts, StreamText, AlwaysLeaves;
    var passes := [Batch(LastBatch(pieces, end))] + rest;
    assert passes[0] == Batch(LastBatch(pieces, end)) && passes[1..] == rest;
    var n := |l.transcript| + |pieces|;
    DecodeBatchStreams(thinking, l, LastBatch(pieces, end), max);
    var r := DecodeBatch(l, LastBatch(pieces, end), max).0;
    if end || n >= max {
      BatchStops(l, pieces, end, max);
      if n <= max { BatchKeeps(l, pieces, end, max); }
    } else {
      assert LastBatch(pieces, end) == pieces;
      BatchRecords(l, pieces, max);
    }
    if n <= max { RecordedLeaves(thinking, r, th, prose, d, tail, calls); }
  }

  lemma FrontText(front: seq<Pass>, pieces: seq<Piece>, whole: bytes, tail: bytes)
    requires |Concat(Texts(Pieces(front)))| < |whole| && Concat(Texts(Pieces(front) + pieces)) == whole + tail
    ensures Concat(Texts(Pieces(front))) <= whole && Texts(Pieces(front) + pieces) == Texts(Pieces(front)) + Texts(pieces)
  {
    hide Concat, Texts, Pieces;
    TextsSplit(Pieces(front), pieces);
    ConcatSplits(Texts(Pieces(front)), Texts(pieces));
    PartIsPrefix(Concat(Texts(Pieces(front))), Concat(Texts(pieces)), whole, tail);
  }

  /**
   * What an answer comes to, with any tail in its last batch that leaves calls to be run:
   * those calls run if and only if the batch holds no end token and stays below the
   * limit. With an end token, or exactly at the limit, the finished calls are dropped and
   * the turn ends idle.
   */
  lemma AnswerOutcome(thinking: bool, front: seq<Pass>, pieces: seq<Piece>, end: bool, rest: seq<Pass>, max: nat,
                      th: bytes, prose: bytes, d: R.Document, tail: bytes, calls: seq<P.Call>)
    requires Writable(d) && Ordinary(thinking, th, prose) && AlwaysLeaves(d, tail, calls)
    requires AllText(front) && OnlyText(pieces)
    requires |Concat(Texts(Pieces(front)))| < |Preface(thinking, th, prose) + R.Print(d)|
    requires Concat(Texts(Pieces(front) + pieces)) == Preface(thinking, th, prose) + R.Print(d) + tail
    ensures var n := |Pieces(front)| + |pieces|;
      var outcome := Round(thinking, front + ([Batch(LastBatch(pieces, end))] + rest), max, false);
      && (outcome == RunTools(calls) <==> !end && n < max)
      && ((end && n < max) || n == max ==> outcome == Idle)
  {
    hide R.Print, Writable, Ordinary, Streamed, Preface, Decode, Decide, Concat, Texts, StreamText, AlwaysLeaves, LastBatch, Pieces, AllText;
    var whole := Preface(thinking, th, prose) + R.Print(d);
    var later := [Batch(LastBatch(pieces, end))] + rest;
    var l := Begin(thinking);
    BeginStreams(thinking);
    var texts := Texts(Pieces(front));
    FrontText(front, pieces, whole, tail);
    assert l.transcript + texts == texts;
    var r := FrontPasses(thinking, l, front, later, max, th, prose, d);
    var e := Decode(l, front + later, max);
    NoToolNoRun(e, StreamText(e.display, e.held, [], true).0, calls);
    if |Pieces(front)| < max {
      LastDecides(thinking, r, pieces, end, rest, max, th, prose, d, tail, calls);
    } else if |Pieces(front)| + |pieces| == max {
      PiecesLeft(front, pieces, whole, tail);
    }
  }

  lemma PiecesLeft(front: seq<Pass>, pieces: seq<Piece>, whole: bytes, tail: bytes)
    requires |Concat(Texts(Pieces(front)))| < |whole| && Concat(Texts(Pieces(front) + pieces)) == whole + tail
    ensures |pieces| > 0
  {
    assert pieces == [] ==> Pieces(front) + pieces == Pieces(front);
  }

  lemma PartIsPrefix(a: bytes, b: bytes, whole: bytes, tail: bytes)
    requires a + b == whole + tail && |a| < |whole|
    ensures a <= whole
  {
    assert a == (a + b)[..|a|] == (whole + tail)[..|a|] == whole[..|a|];
  }

  lemma NoToolNoRun(l: Loop, s: Display, calls: seq<P.Call>)
    ensures !l.gotTool ==> Decide(l, s, false) != RunTools(calls)
  {
    hide IN_THINKING, INCOMPLETE, PARSE_ERROR;
  }

  lemma NothingLeaves(d: R.Document)
    ensures AlwaysLeaves(d, [], R.Calls(d.calls))
  {
    forall s: Display | Ran(s, d) ensures Leaves(s, [], R.Calls(d.calls)) {
      RanFinishes(s, d);
    }
  }

  /**
   * Printed calls run, exactly: an answer of ordinary text (thinking without markers, its
   * closing tag, prose without markers) and then printed calls, in any cutting into
   * tokens and batches, runs those calls if and only if the batch that completes it holds
   * no end token and the answer has fewer tokens than the limit, whatever would be decoded
   * after it. Otherwise the complete calls are silently dropped.
   */
  lemma PrintedCallsRun(thinking: bool, front: seq<Pass>, pieces: seq<Piece>, end: bool, rest: seq<Pass>, max: nat,
                        th: bytes, prose: bytes, d: R.Document)
    requires Writable(d) && Ordinary(thinking, th, prose)
    requires AllText(front) && OnlyText(pieces)
    requires Concat(Texts(Pieces(front))) != Preface(thinking, th, prose) + R.Print(d)
    requires Concat(Texts(Pieces(front) + pieces)) == Preface(thinking, th, prose) + R.Print(d)
    ensures var n := |Pieces(front)| + |pieces|;
      var outcome := Round(thinking, front + ([Batch(LastBatch(pieces, end))] + rest), max, false);
      && (outcome == RunTools(R.Calls(d.calls)) <==> !end && n < max)
      && ((end && n < max) || n == max ==> outcome == Idle)
  {
    hide *;
    var whole := Preface(thinking, th, prose) + R.Print(d);
    TextsSplit(Pieces(front), pieces);
    ConcatSplits(Texts(Pieces(front)), Texts(pieces));
    ShorterPart(Concat(Texts(Pieces(front))), Concat(Texts(pieces)), whole);
    NothingLeaves(d);
    assert whole + [] == whole;
    AnswerOutcome(thinking, front, pieces, end, rest, max, th, prose, d, [], R.Calls(d.calls));
  }

  lemma ShorterPart(a: bytes, b: bytes, whole: bytes)
    requires a + b == whole && a != whole
    ensures |a| < |whole|
  {
    assert b == [] ==> a + b == a;
  }

  /** A stanza and the end token in one batch: the calls are dropped. */
  lemma EndTokenDropsCalls(d: R.Document, max: nat)
    requires Writable(d) && max > 1
    ensures Round(false, [Batch([Text(R.Print(d)), Eos])], max, false) == Idle
  {
    hide R.Print, R.Calls, Writable, Round;
    var pieces := [Text(R.Print(d))];
    OneText(R.Print(d));
    NoPreface();
    assert [] + pieces == pieces && pieces + [Eos] == [Text(R.Print(d)), Eos];
    PrintedCallsRun(false, [], pieces, true, [], max, [], [], d) by { PrintIsLong(d); }
    assert [] + ([Batch(LastBatch(pieces, true))] + []) == [Batch([Text(R.Print(d)), Eos])];
  }

  /** A stanza on the last allowed token: the calls are dropped. */
  lemma LimitDropsCalls(d: R.Document)
    requires Writable(d)
    ensures Round(false, [Batch([Text(R.Print(d))])], 1, false) == Idle
  {
    hide R.Print, R.Calls, Writable, Round;
    var pieces := [Text(R.Print(d))];
    OneText(R.Print(d));
    NoPreface();
    assert [] + pieces == pieces && pieces + [] == pieces;
    PrintedCallsRun(false, [], pieces, false, [], 1, [], [], d) by { PrintIsLong(d); }
    assert [] + ([Batch(LastBatch(pieces, false))] + []) == [Batch(pieces)];
  }

  lemma PrintIsLong(d: R.Document)
    requires Writable(d)
    ensures R.Print(d) != []
  {
    hide R.Print;
    StanzaParses(d);
  }

  lemma OneText(text: bytes)
    ensures Concat(Texts([Text(text)])) == text && Concat(Texts(Pieces([]))) == []
  {
    var pieces := [Text(text)];
    assert pieces[1..] == [] && Texts(pieces[1..]) == [];
    var chunks := Texts(pieces);
    assert chunks == [text] && chunks[1..] == [] && text + [] == text;
  }

  lemma NoPreface()
    ensures Ordinary(false, [], []) && forall text: bytes :: Preface(false, [], []) + text == text
  {
    hide FindSub;
    forall text: bytes ensures Preface(false, [], []) + text == text {
      assert [] + text == text;
    }
    assert MarkerFree([]) by {
      forall m | m in MARKERS ensures FindSub([], m).None? {
        MarkersHaveNoBlank(m);
        FindSubNone([], m);
      }
    }
    TagLengths();
    FindSubNone([], THINK_OPEN);
    FindSubNone([], THINK_CLOSE);
  }
}
