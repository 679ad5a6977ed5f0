// The display state machine for assistant output (ds4_agent.c:3115-3508): it hides
// tool calls from the first opening marker on, feeds them to the DSML parser, and
// sends everything else to the renderer. The renderer and the tool visualiser are
// a sequence of events: whatever they do is a function of it.

module StreamDisplay {
  import opened Bytes
  import opened DsmlTags
  import P = DsmlParse
  import D = DsmlStream
  import opened TagSplitter

  const MISSING_BAR_START: bytes := Ascii("<DSML") + BAR + Ascii("tool_calls>")
  const INVOKE_OPENER: bytes := OPEN + INVOKE
  const MISSING_BAR_INVOKE: bytes := Ascii("<DSML") + BAR + INVOKE

  const ASCII_MARKER: bytes := Ascii("|DSML|")
  const MISSING_OPEN: bytes := Ascii("<DSML") + BAR
  const MISSING_CLOSE: bytes := Ascii("</DSML") + BAR
  const DETECTOR: nat := 32
  const START_TAIL: nat := 64

  const IN_THINKING: bytes := Ascii("tool calling is not allowed ") + Ascii("inside <think></think>")
  const MALFORMED_IN_THINKING: bytes := Ascii("malformed tool call inside <think></think>")
  const STRAY_MARKUP: bytes := Ascii("DSML markup outside a valid tool_calls block")

  /** What reaches the terminal. */
  datatype Event =
    | Char(c: byte)
    | ThinkOpened
    | ThinkClosed
    | ToolStarted
    | ToolByte(b: byte)
    | ToolDone
    | ToolFailed(error: bytes)
    | ToolInterrupted
    | CallIgnored(why: bytes)
    | CallMalformed(what: bytes)

  datatype Stream = Stream(
    parser: D.State,
    inThink: bool,
    dsmlActive: bool,
    dsmlIgnored: bool,
    startTail: bytes,
    plainTail: bytes,
    thinkTail: bytes,
    dsmlInThink: bool,
    reported: bool,
    postThinkGap: bool,
    sink: seq<Event>)

  const NEW := Stream(D.INIT, false, false, false, [], [], [], false, false, false, [])

  /** Records whose parser is one that feeding can reach. */
  type Display = s: Stream | D.Sound(s.parser) && |s.thinkTail| <= DETECTOR witness NEW

  function Emit(s: Display, e: Event): Display { s.(sink := s.sink + [e]) }

  // ---------------------------------------------------------------- detectors

  function EndsWith(s: bytes, pat: bytes): bool {
    |pat| <= |s| && s[|s| - |pat|..] == pat
  }

  predicate EndsInMarker(tail: bytes) {
    EndsWith(tail, DSML) || EndsWith(tail, ASCII_MARKER) || EndsWith(tail, MISSING_OPEN) || EndsWith(tail, MISSING_CLOSE)
  }

  /** `agent_dsml_marker_detector_feed` keeps the last 32 bytes. */
  function Slide(tail: bytes, c: byte): (r: bytes)
    ensures |tail| <= DETECTOR ==> |r| <= DETECTOR
  {
    (if |tail| == DETECTOR then tail[1..] else tail) + [c]
  }

  function NoteThinking(s: Display, c: byte): Display {
    if !s.inThink || s.dsmlInThink then s
    else
      var tail := Slide(s.thinkTail, c);
      s.(thinkTail := tail, dsmlInThink := EndsInMarker(tail))
  }

  function Malformed(s: Display, what: bytes): Display {
    if s.parser.core.phase == P.Failed then s
    else
      var core := s.parser.core.(phase := P.Failed, error := what);
      Emit(s.(parser := s.parser.(core := core, closePrefix := false)), CallMalformed(what))
  }

  function NotePlain(s: Display, c: byte): Display {
    if s.parser.core.phase == P.Failed || s.dsmlActive || s.inThink || s.dsmlInThink then s
    else
      var tail := Slide(s.plainTail, c);
      var t := s.(plainTail := tail);
      if EndsInMarker(tail) then Malformed(t, STRAY_MARKUP) else t
  }

  /** Bytes that turned out not to open a tool call go to the renderer, up to a malformed marker. */
  function FlushBytes(s: Display, bs: bytes): Display
    decreases |bs|
  {
    if bs == [] then s
    else
      var t := NotePlain(Emit(s, Char(bs[0])), bs[0]);
      if t.parser.core.phase == P.Failed then t else FlushBytes(t, bs[1..])
  }

  function FlushStartTail(s: Display): Display {
    if s.startTail == [] then s
    else FlushBytes(s.(postThinkGap := false), s.startTail).(startTail := [])
  }

  // ---------------------------------------------------------------- tool bytes

  function FinishIgnored(s: Display, why: bytes): Display {
    Emit(s, CallIgnored(why)).(parser := D.INIT, dsmlInThink := true, reported := true, dsmlActive := false, dsmlIgnored := false)
  }

  /** After a byte of a call: a finished or broken stanza ends it. */
  function Settle(s: Display): Display {
    match s.parser.core.phase
    case Done =>
      if s.dsmlIgnored then FinishIgnored(s, IN_THINKING) else Emit(s, ToolDone).(dsmlActive := false)
    case Failed =>
      if s.dsmlIgnored then FinishIgnored(s, MALFORMED_IN_THINKING)
      else Emit(s, ToolFailed(s.parser.core.error)).(dsmlActive := false)
    case _ => s
  }

  /** `agent_stream_feed_dsml_byte`. */
  function FeedDsml(s: Display, c: byte): Display {
    var t := s.(parser := D.Feed(s.parser, [c]));
    Settle(if s.dsmlIgnored then t else Emit(t, ToolByte(c)))
  }

  function FeedDsmlBytes(s: Display, bs: bytes): Display
    decreases |bs|
  {
    if bs == [] then s else FeedDsmlBytes(FeedDsml(s, bs[0]), bs[1..])
  }

  lemma StartIsSound(s: D.State)
    requires D.Sound(s)
    ensures D.Sound(D.Start(s).(closePrefix := false))
  {
  }

  // The parser is inside no value when no call is active, so its close-prefix flag is
  // already off where a call starts and where plain text turns out malformed.

  /** `agent_stream_start_dsml`: the parser is seeded with the canonical marker. */
  function StartDsml(s: Display, ignored: bool): Display {
    StartIsSound(s.parser);
    var t := s.(parser := D.Start(s.parser).(closePrefix := false), dsmlActive := true, dsmlIgnored := ignored,
                dsmlInThink := s.dsmlInThink || ignored, startTail := [], postThinkGap := false);
    if ignored then t else Emit(t, ToolStarted)
  }

  datatype Match = NoMatch | Prefix | Whole(implicitInvoke: bool)

  /** `agent_stream_dsml_start_match`: the first opener that `tail` is a prefix of. */
  function StartMatch(tail: bytes): Match {
    if tail <= START then (if tail == START then Whole(false) else Prefix)
    else if tail <= MISSING_BAR_START then (if tail == MISSING_BAR_START then Whole(false) else Prefix)
    else if tail <= INVOKE_OPENER then (if tail == INVOKE_OPENER then Whole(true) else Prefix)
    else if tail <= MISSING_BAR_INVOKE then (if tail == MISSING_BAR_INVOKE then Whole(true) else Prefix)
    else NoMatch
  }

  /** A byte while a possible opener is held: extend it, start a call, or give it up. */
  function OpenerByte(s: Display, c: byte): Display {
    var tail := if |s.startTail| < START_TAIL then s.startTail + [c] else s.startTail;
    var t := s.(startTail := tail);
    match StartMatch(tail)
    case Prefix => t
    case Whole(implicitInvoke) => BeginCall(t, implicitInvoke)
    case NoMatch => GiveUp(t)
  }

  function BeginCall(s: Display, implicitInvoke: bool): Display {
    var u := StartDsml(s, s.inThink);
    if implicitInvoke then FeedDsmlBytes(u, INVOKE_OPENER) else u
  }

  /** The held bytes open nothing; a `<` at their end may still open something. */
  function GiveUp(s: Display): Display {
    var tail := s.startTail;
    if |tail| > 1 && tail[|tail| - 1] == LT then
      var u := FlushBytes(s.(postThinkGap := false), tail[..|tail| - 1]);
      u.(startTail := if u.parser.core.phase == P.Failed then [] else [LT])
    else FlushStartTail(s)
  }

  /** `agent_stream_normal_byte`. */
  function NormalByte(s: Display, c: byte): Display {
    if s.parser.core.phase == P.Failed then s
    else
      var t := NoteThinking(s, c);
      if t.postThinkGap && IsBlank(c) then t
      else if t.startTail != [] || c == LT then OpenerByte(t, c)
      else NotePlain(Emit(t.(postThinkGap := false), Char(c)), c)
  }

  function StreamByte(s: Display, c: byte): Display {
    if s.dsmlActive then FeedDsml(s, c) else NormalByte(s, c)
  }

  function OpenThink(s: Display): Display {
    Emit(FlushStartTail(s).(postThinkGap := false, inThink := true), ThinkOpened)
  }

  function CloseThink(s: Display): Display {
    Emit(FlushStartTail(s).(postThinkGap := true, inThink := false), ThinkClosed)
  }

  const DISPLAY_MACHINE: Machine<Display> := Machine(
    (s: Display) => s.dsmlActive,
    (s: Display) => OpenThink(s),
    (s: Display) => CloseThink(s),
    (s: Display, c: byte) => StreamByte(s, c))

  /** One turn of the loop over the bytes of a call. */
  lemma DriveStep(s: Display, buf: bytes, finish: bool)
    ensures var r := Drive(DISPLAY_MACHINE, s, buf, finish);
      && (buf == [] ==> r == (s, []))
      && (buf != [] ==>
            r == if !s.dsmlActive && THINK_OPEN <= buf then
                   Drive(DISPLAY_MACHINE, OpenThink(s), buf[|THINK_OPEN|..], finish)
                 else if !s.dsmlActive && THINK_CLOSE <= buf then
                   Drive(DISPLAY_MACHINE, CloseThink(s), buf[|THINK_CLOSE|..], finish)
                 else if !finish && !s.dsmlActive && HeldBack(buf) then (s, buf)
                 else Drive(DISPLAY_MACHINE, StreamByte(s, buf[0]), buf[1..], finish))
  {
    hide THINK_OPEN, THINK_CLOSE, HeldBack, OpenThink, CloseThink, StreamByte;
  }

  // ---------------------------------------------------------------- whole calls

  function Finish(s: Display): Display {
    var t := FlushStartTail(s).(postThinkGap := false);
    var u := if !t.dsmlActive then t
             else if t.dsmlIgnored then FinishIgnored(t, IN_THINKING)
             else Emit(t, ToolInterrupted).(dsmlActive := false);
    if u.dsmlInThink && !u.reported then FinishIgnored(u, IN_THINKING) else u
  }

  /** `agent_stream_text` with the pending bytes of the last call. */
  function StreamText(s: Display, pending: bytes, text: bytes, finish: bool): (Display, bytes) {
    var (t, held) := Drive(DISPLAY_MACHINE, s, pending + text, finish);
    (if finish then Finish(t) else t, held)
  }

  function StreamChunks(s: Display, pending: bytes, chunks: seq<bytes>): (Display, bytes)
    decreases |chunks|
  {
    if chunks == [] then (s, pending)
    else
      var (t, held) := StreamText(s, pending, chunks[0], false);
      StreamChunks(t, held, chunks[1..])
  }

  lemma {:induction false} StreamChunksIsDriveChunks(s: Display, pending: bytes, chunks: seq<bytes>)
    ensures StreamChunks(s, pending, chunks) == DriveChunks(DISPLAY_MACHINE, s, pending, chunks)
    decreases |chunks|
  {
    hide DISPLAY_MACHINE, Drive;
    if chunks != [] {
      var (t, held) := StreamText(s, pending, chunks[0], false);
      StreamChunksIsDriveChunks(t, held, chunks[1..]);
    }
  }

  /**
   * Split invariance: however the generated text is cut into calls, a finishing call
   * leaves the parser, its calls, every flag and the whole sequence of events sent to
   * the terminal as one finished call on the whole text does.
   */
  lemma DisplaySplitInvariance(s: Display, pending: bytes, chunks: seq<bytes>, last: bytes)
    ensures var (t, held) := StreamChunks(s, pending, chunks);
      StreamText(t, held, last, true) == StreamText(s, pending, Concat(chunks) + last, true)
  {
    hide DISPLAY_MACHINE, Drive, Finish;
    StreamChunksIsDriveChunks(s, pending, chunks);
    SplitInvariance(DISPLAY_MACHINE, s, pending, chunks, last);
  }

  // ---------------------------------------------------------------- states reached

  /** A call is active exactly while the parser is inside a stanza. */
  ghost predicate Consistent(s: Display) {
    s.dsmlActive <==> P.Active(s.parser.core)
  }

  /** No tool call of this text can be run any more. */
  ghost predicate Caught(s: Display) {
    s.dsmlInThink || (s.parser.core.phase == P.Failed && !s.dsmlActive)
  }

  lemma {:induction false} FlushKeeps(s: Display, bs: bytes)
    ensures var t := FlushBytes(s, bs);
      && t.dsmlInThink == s.dsmlInThink && t.inThink == s.inThink && t.dsmlActive == s.dsmlActive
      && t.thinkTail == s.thinkTail && t.reported == s.reported
      && (t.parser == s.parser || (t.parser.core.phase == P.Failed && !s.dsmlActive && !s.inThink))
      && (s.parser.core.phase == P.Failed ==> t.parser == s.parser)
    decreases |bs|
  {
    hide EndsInMarker;
    if bs != [] {
      var t := NotePlain(Emit(s, Char(bs[0])), bs[0]);
      if t.parser.core.phase != P.Failed { FlushKeeps(t, bs[1..]); }
    }
  }

  lemma FlushTailKeeps(s: Display)
    ensures var t := FlushStartTail(s);
      && t.dsmlInThink == s.dsmlInThink && t.inThink == s.inThink && t.dsmlActive == s.dsmlActive
      && t.thinkTail == s.thinkTail && t.reported == s.reported
      && (t.parser == s.parser || (t.parser.core.phase == P.Failed && !s.dsmlActive && !s.inThink))
      && (s.parser.core.phase == P.Failed ==> t.parser == s.parser)
  {
    hide FlushBytes;
    FlushKeeps(s.(postThinkGap := false), s.startTail);
  }

  lemma FeedPhase(s: D.State, c: byte)
    requires D.Sound(s)
    ensures s.core.phase != P.Search ==> D.Feed(s, [c]).core.phase != P.Search
    ensures P.Active(s.core) || D.Final(D.Feed(s, [c]).core.phase) == D.Final(s.core.phase)
  {
    hide START, P.Parse, D.ClosePrefix;
    assert D.FeedBytes(s, [c]) == D.FeedByte(s, c) by { assert [c][1..] == []; }
    if s.core.phase != P.Search { D.ParseStarted(s.raw + [c], s.core); }
  }

  lemma SearchOnly(s: D.State, c: byte)
    requires D.Sound(s) && s.core.phase == P.Search && |s.tail| + 1 < |START|
    ensures D.Feed(s, [c]).core.phase == P.Search && |D.Feed(s, [c]).tail| <= |s.tail| + 1
  {
    hide START;
    assert D.FeedBytes(s, [c]) == D.FeedByte(s, c) by { assert [c][1..] == []; }
  }

  lemma SettleKeeps(s: Display)
    ensures var t := Settle(s);
      && t.inThink == s.inThink && (s.dsmlInThink ==> t.dsmlInThink)
      && (D.Final(s.parser.core.phase) ==> !t.dsmlActive && t.parser == if s.dsmlIgnored then D.INIT else s.parser)
      && (!D.Final(s.parser.core.phase) ==> t == s)
  {
    hide START, CLOSE, OPEN, DSML;
  }

  lemma FeedDsmlKeeps(s: Display, c: byte)
    requires Consistent(s) && (s.parser.core.phase == P.Search ==> |s.parser.tail| + 1 < |START|)
    ensures var t := FeedDsml(s, c);
      && Consistent(t) && t.inThink == s.inThink && (s.dsmlInThink ==> t.dsmlInThink)
      && (t.parser.core.phase == P.Search && s.parser.core.phase != P.Search ==> t.parser.tail == [])
      && (t.parser.core.phase == P.Search && s.parser.core.phase == P.Search ==> |t.parser.tail| <= |s.parser.tail| + 1)
      && (s.parser.core.phase == P.Search ==> t.parser.core.phase == P.Search)
  {
    hide D.Feed, START, Settle;
    FeedPhase(s.parser, c);
    var t := s.(parser := D.Feed(s.parser, [c]));
    SettleKeeps(if s.dsmlIgnored then t else Emit(t, ToolByte(c)));
    if s.parser.core.phase == P.Search { SearchOnly(s.parser, c); }
  }

  lemma {:induction false} FeedDsmlBytesKeeps(s: Display, bs: bytes)
    requires Consistent(s) && |bs| + 1 < |START|
    requires s.parser.core.phase == P.Search ==> |s.parser.tail| + |bs| < |START|
    ensures var t := FeedDsmlBytes(s, bs);
      Consistent(t) && t.inThink == s.inThink && (s.dsmlInThink ==> t.dsmlInThink)
    decreases |bs|
  {
    hide FeedDsml, START, Consistent;
    if bs != [] {
      FeedDsmlKeeps(s, bs[0]);
      FeedDsmlBytesKeeps(FeedDsml(s, bs[0]), bs[1..]);
    }
  }

  lemma OpenerLengths()
    ensures |START| == 22 && |INVOKE_OPENER| == 17 && |MISSING_BAR_START| == 19 && |MISSING_BAR_INVOKE| == 14
    ensures START[|START| - 1] == GT && MISSING_BAR_START[|MISSING_BAR_START| - 1] == GT
    ensures INVOKE_OPENER[|INVOKE_OPENER| - 1] == 0x65 && MISSING_BAR_INVOKE[|MISSING_BAR_INVOKE| - 1] == 0x65
  {
  }

  lemma StartKeeps(s: Display)
    requires !s.dsmlActive
    ensures var t := StartDsml(s, s.inThink);
      && Consistent(t) && t.inThink == s.inThink && t.dsmlInThink == (s.dsmlInThink || s.inThink)
      && t.parser.core.phase == P.Structural
  {
  }

  lemma BeginCallKeeps(s: Display, implicitInvoke: bool)
    requires !s.dsmlActive
    ensures var t := BeginCall(s, implicitInvoke);
      Consistent(t) && t.inThink == s.inThink && (s.dsmlInThink || s.inThink ==> t.dsmlInThink)
  {
    OpenerLengths();
    hide StartDsml, INVOKE_OPENER, START, FeedDsmlBytes, Consistent;
    StartKeeps(s);
    if implicitInvoke { FeedDsmlBytesKeeps(StartDsml(s, s.inThink), INVOKE_OPENER); }
  }

  lemma GiveUpKeeps(s: Display)
    requires Consistent(s) && !s.dsmlActive
    ensures var t := GiveUp(s);
      && Consistent(t) && t.inThink == s.inThink && t.dsmlInThink == s.dsmlInThink && !t.dsmlActive
      && t.thinkTail == s.thinkTail && (t.parser == s.parser || (t.parser.core.phase == P.Failed && !s.inThink))
  {
    hide FlushStartTail, FlushBytes;
    var tail := s.startTail;
    if |tail| > 1 { FlushKeeps(s.(postThinkGap := false), tail[..|tail| - 1]); }
    FlushTailKeeps(s);
  }

  lemma OpenerByteKeeps(s: Display, c: byte)
    requires Consistent(s) && !s.dsmlActive
    ensures var t := OpenerByte(s, c);
      && Consistent(t) && t.inThink == s.inThink && (s.dsmlInThink ==> t.dsmlInThink)
      && (s.inThink && !t.dsmlInThink ==> t.parser == s.parser && !t.dsmlActive && t.thinkTail == s.thinkTail)
  {
    hide StartMatch, BeginCall, GiveUp;
    var tail := if |s.startTail| < START_TAIL then s.startTail + [c] else s.startTail;
    var t := s.(startTail := tail);
    match StartMatch(tail)
    case Prefix =>
    case Whole(implicitInvoke) => BeginCallKeeps(t, implicitInvoke);
    case NoMatch => GiveUpKeeps(t);
  }

  /** One byte keeps the two kinds of state in step; while thinking it either is caught or only slides the detector. */
  lemma StreamByteKeeps(s: Display, c: byte)
    requires Consistent(s)
    ensures var t := StreamByte(s, c);
      && Consistent(t) && t.inThink == s.inThink && (s.dsmlInThink ==> t.dsmlInThink) && (Caught(s) ==> Caught(t))
      && (s.inThink && !s.dsmlActive && !Caught(s) && !t.dsmlInThink ==>
            !t.dsmlActive && t.parser == s.parser && t.thinkTail == Slide(s.thinkTail, c) && !EndsInMarker(t.thinkTail))
  {
    hide D.Feed, OpenerByte, Slide, EndsInMarker, START;
    if s.dsmlActive {
      FeedDsmlKeeps(s, c);
    } else if s.parser.core.phase != P.Failed {
      var t := NoteThinking(s, c);
      if t.startTail != [] || c == LT { OpenerByteKeeps(t, c); }
    }
  }

  lemma TagsKeep(s: Display)
    requires Consistent(s) && !s.dsmlActive
    ensures Consistent(OpenThink(s)) && Consistent(CloseThink(s))
    ensures Caught(s) ==> Caught(OpenThink(s)) && Caught(CloseThink(s))
    ensures OpenThink(s).inThink && !OpenThink(s).dsmlActive
    ensures s.inThink ==> OpenThink(s).parser == s.parser && OpenThink(s).dsmlInThink == s.dsmlInThink
  {
    hide FlushStartTail;
    FlushTailKeeps(s);
  }

  /** Nothing that follows frees a text that was caught. */
  lemma {:induction false} DriveKeeps(s: Display, buf: bytes, finish: bool)
    requires Consistent(s)
    ensures var t := Drive(DISPLAY_MACHINE, s, buf, finish).0;
      Consistent(t) && (Caught(s) ==> Caught(t))
    decreases |buf|
  {
    hide THINK_OPEN, THINK_CLOSE, HeldBack, Consistent, Caught, StreamByte, OpenThink, CloseThink;
    TagLengths();
    if buf == [] {
    } else if !s.dsmlActive && THINK_OPEN <= buf {
      TagsKeep(s);
      DriveKeeps(OpenThink(s), buf[|THINK_OPEN|..], finish);
    } else if !s.dsmlActive && THINK_CLOSE <= buf {
      TagsKeep(s);
      DriveKeeps(CloseThink(s), buf[|THINK_CLOSE|..], finish);
    } else if !finish && !s.dsmlActive && HeldBack(buf) {
    } else {
      StreamByteKeeps(s, buf[0]);
      DriveKeeps(StreamByte(s, buf[0]), buf[1..], finish);
    }
  }

  lemma FinishKeeps(s: Display)
    requires Consistent(s)
    ensures Caught(s) ==> Caught(Finish(s))
  {
    hide FlushStartTail;
    FlushTailKeeps(s);
  }

  // ---------------------------------------------------------------- markers in thinking

  const MARKERS: seq<bytes> := [DSML, ASCII_MARKER, MISSING_OPEN, MISSING_CLOSE]

  /** Every opener carries a marker. */
  lemma OpenersCarryMarkers()
    ensures START == [LT] + DSML + (TOOL_CALLS + [GT]) && INVOKE_OPENER == [LT] + DSML + INVOKE
    ensures MISSING_BAR_START == [] + MISSING_OPEN + (TOOL_CALLS + [GT]) && MISSING_BAR_INVOKE == [] + MISSING_OPEN + INVOKE
  {
  }

  lemma MarkerShapes(mark: bytes)
    requires mark in MARKERS
    ensures 0 < |mark| <= DETECTOR && (forall tail: bytes :: EndsWith(tail, mark) ==> EndsInMarker(tail))
    ensures forall k :: 0 < k < |mark| ==> mark[k] != LT
    ensures forall rest: bytes :: !(THINK_OPEN <= mark + rest) && !(THINK_CLOSE <= mark + rest)
    ensures forall k :: 0 < k < |THINK_OPEN| ==> THINK_OPEN[k] != mark[0] && THINK_OPEN[k] != LT
    ensures forall k :: 0 < k < |THINK_CLOSE| ==> THINK_CLOSE[k] != mark[0] && THINK_CLOSE[k] != LT
  {
    assert mark == DSML || mark == ASCII_MARKER || mark == MISSING_OPEN || mark == MISSING_CLOSE;
    assert mark[0] == THINK_OPEN[0] ==> mark[1] != THINK_OPEN[1];
    assert mark[0] == THINK_CLOSE[0] ==> mark[2] != THINK_CLOSE[2];
    forall rest: bytes ensures !(THINK_OPEN <= mark + rest) && !(THINK_CLOSE <= mark + rest) {
      assert (mark + rest)[0] == mark[0] && (mark + rest)[1] == mark[1] && (mark + rest)[2] == mark[2];
    }
  }

  lemma SlideGrows(tail: bytes, pat: bytes, k: nat)
    requires k < |pat| <= DETECTOR && EndsWith(tail, pat[..k]) && |tail| <= DETECTOR
    ensures EndsWith(Slide(tail, pat[k]), pat[..k + 1])
  {
    var kept := if |tail| == DETECTOR then tail[1..] else tail;
    var n := |kept| - k;
    assert n >= 0 && kept[n..] == tail[|tail| - k..];
    SuffixAppend(kept, pat[k], n);
    assert pat[..k + 1] == pat[..k] + [pat[k]];
  }

  lemma SuffixAppend(s: bytes, c: byte, n: nat)
    requires n <= |s|
    ensures (s + [c])[n..] == s[n..] + [c]
  {
  }

  /** Thinking text, outside any call: either caught or still thinking. */
  ghost predicate Thinking(s: Display) {
    Consistent(s) && (Caught(s) || (s.inThink && !s.dsmlActive))
  }

  lemma ThinkingByte(s: Display, c: byte)
    requires Thinking(s)
    ensures Thinking(StreamByte(s, c)) && (Caught(s) ==> Caught(StreamByte(s, c)))
    ensures Caught(StreamByte(s, c)) || (StreamByte(s, c).thinkTail == Slide(s.thinkTail, c) && !EndsInMarker(StreamByte(s, c).thinkTail))
  {
    hide StreamByte, EndsInMarker;
    StreamByteKeeps(s, c);
  }

  /** Bytes at which no tag starts all go to the machine. */
  ghost predicate NoTagIn(t: bytes, n: nat) {
    forall i :: 0 <= i < n && i < |t| ==> !(THINK_OPEN <= t[i..]) && !(THINK_CLOSE <= t[i..])
  }

  lemma {:induction false} DriveMarker(s: Display, mark: bytes, k: nat, rest: bytes)
    requires mark in MARKERS && k <= |mark| && Thinking(s)
    requires Caught(s) || (EndsWith(s.thinkTail, mark[..k]) && k < |mark|)
    requires NoTagIn(mark[k..] + rest, |mark| - k)
    ensures Caught(Drive(DISPLAY_MACHINE, s, mark[k..] + rest, true).0)
    decreases |mark| - k
  {
    hide THINK_OPEN, THINK_CLOSE, StreamByte, MARKERS, EndsInMarker, Slide, Consistent, Caught, EndsWith;
    var buf := mark[k..] + rest;
    if Caught(s) {
      DriveKeeps(s, buf, true);
    } else {
      MarkerShapes(mark);
      assert buf[0] == mark[k] && buf[1..] == mark[k + 1..] + rest;
      assert buf[0..] == buf;
      ThinkingByte(s, mark[k]);
      SlideGrows(s.thinkTail, mark, k);
      var t := StreamByte(s, mark[k]);
      assert mark[..|mark|] == mark;
      forall i | 0 <= i < |mark| - (k + 1) && i < |buf[1..]| ensures !(THINK_OPEN <= buf[1..][i..]) && !(THINK_CLOSE <= buf[1..][i..]) {
        assert buf[1..][i..] == buf[i + 1..];
      }
      DriveMarker(t, mark, k + 1, rest);
      assert Drive(DISPLAY_MACHINE, s, buf, true) == Drive(DISPLAY_MACHINE, t, buf[1..], true) by { DriveByte(s, buf); }
    }
  }

  lemma DriveByte(s: Display, buf: bytes)
    requires buf != [] && !(THINK_OPEN <= buf) && !(THINK_CLOSE <= buf)
    ensures Drive(DISPLAY_MACHINE, s, buf, true) == Drive(DISPLAY_MACHINE, StreamByte(s, buf[0]), buf[1..], true)
  {
    hide THINK_OPEN, THINK_CLOSE, StreamByte;
  }

  /** A marker reached while thinking is caught, whatever comes before it in the thinking text. */
  lemma {:induction false} DriveToMarker(s: Display, pre: bytes, mark: bytes, rest: bytes)
    requires mark in MARKERS && Thinking(s)
    requires forall i :: 0 <= i < |pre| ==> !(THINK_CLOSE <= (pre + (mark + rest))[i..])
    ensures Caught(Drive(DISPLAY_MACHINE, s, pre + (mark + rest), true).0)
    decreases |pre|
  {
    hide THINK_OPEN, THINK_CLOSE, StreamByte, MARKERS, EndsInMarker, Consistent, Caught, OpenThink, CloseThink;
    TagLengths();
    MarkerShapes(mark);
    var buf := pre + (mark + rest);
    if Caught(s) {
      DriveKeeps(s, buf, true);
    } else if pre == [] {
      assert buf == mark[0..] + rest;
      MarkerNoTag(mark, rest);
      DriveMarker(s, mark, 0, rest);
    } else if THINK_OPEN <= buf {
      assert buf[|pre|] == mark[0];
      assert forall k :: 0 <= k < |THINK_OPEN| ==> buf[k] == THINK_OPEN[k];
      assert |pre| >= |THINK_OPEN|;
      var next := pre[|THINK_OPEN|..];
      assert buf[|THINK_OPEN|..] == next + (mark + rest);
      ShiftNoClose(pre, mark + rest, |THINK_OPEN|);
      OpenKeepsThinking(s);
      DriveToMarker(OpenThink(s), next, mark, rest);
    } else {
      assert buf[0..] == buf;
      assert buf[0] == pre[0] && buf[1..] == pre[1..] + (mark + rest);
      ShiftNoClose(pre, mark + rest, 1);
      ThinkingByte(s, pre[0]);
      DriveByte(s, buf);
      DriveToMarker(StreamByte(s, pre[0]), pre[1..], mark, rest);
    }
  }

  lemma ShiftNoClose(pre: bytes, tail: bytes, n: nat)
    requires n <= |pre| && forall i :: 0 <= i < |pre| ==> !(THINK_CLOSE <= (pre + tail)[i..])
    ensures forall i :: 0 <= i < |pre| - n ==> !(THINK_CLOSE <= (pre[n..] + tail)[i..])
  {
    hide THINK_CLOSE;
    forall i | 0 <= i < |pre| - n ensures !(THINK_CLOSE <= (pre[n..] + tail)[i..]) {
      assert (pre[n..] + tail)[i..] == (pre + tail)[n + i..];
    }
  }

  lemma MarkerNoTag(mark: bytes, rest: bytes)
    requires mark in MARKERS
    ensures NoTagIn(mark[0..] + rest, |mark|)
  {
    hide MARKERS;
    MarkerShapes(mark);
    assert mark[0..] == mark;
    var t := mark + rest;
    assert t[0..] == t;
    forall i | 0 < i < |mark| ensures !(THINK_OPEN <= t[i..]) && !(THINK_CLOSE <= t[i..]) {
      assert t[i..][0] == mark[i] != LT;
    }
  }

  lemma OpenKeepsThinking(s: Display)
    requires Thinking(s) && !s.dsmlActive
    ensures Thinking(OpenThink(s))
  {
    hide FlushStartTail;
    FlushTailKeeps(s);
    TagsKeep(s);
  }

  /**
   * A marker or opener in thinking text is caught for good: from any thinking state,
   * however the text is cut into calls, if a marker comes before the next </think>
   * the finished text can run no tool call, whatever follows it.
   */
  lemma MarkerInThinkingIsCaught(s: Display, pending: bytes, chunks: seq<bytes>, last: bytes, pre: bytes, mark: bytes, rest: bytes)
    requires Thinking(s) && mark in MARKERS
    requires pending + (Concat(chunks) + last) == pre + (mark + rest)
    requires forall i :: 0 <= i < |pre| ==> !(THINK_CLOSE <= (pre + (mark + rest))[i..])
    ensures var (t, held) := StreamChunks(s, pending, chunks);
      Caught(StreamText(t, held, last, true).0)
  {
    hide THINK_CLOSE, MARKERS, Thinking, Finish, Caught, Drive;
    DisplaySplitInvariance(s, pending, chunks, last);
    DriveToMarker(s, pre, mark, rest);
    assert Consistent(s) by { ThinkingConsistent(s); }
    DriveKeeps(s, pre + (mark + rest), true);
    FinishKeeps(Drive(DISPLAY_MACHINE, s, pre + (mark + rest), true).0);
  }

  lemma ThinkingConsistent(s: Display)
    requires Thinking(s)
    ensures Consistent(s)
  {
  }

  // ---------------------------------------------------------------- finishing

  /** Bytes of a held partial tag cannot complete an opener, so finishing starts no call. */
  lemma HeldByteStartsNothing(s: Display, c: byte)
    requires Consistent(s) && !s.dsmlActive && c != GT && c != 0x65
    ensures var t := StreamByte(s, c);
      && Consistent(t) && !t.dsmlActive
      && (t.parser == s.parser || t.parser.core.phase == P.Failed)
  {
    hide D.Feed, FlushBytes, FlushStartTail, EndsInMarker, START, MISSING_BAR_START, INVOKE_OPENER, MISSING_BAR_INVOKE, StartDsml, FeedDsmlBytes;
    StreamByteKeeps(s, c);
    if s.parser.core.phase != P.Failed {
      var u := NoteThinking(s, c);
      if u.startTail != [] || c == LT { OpenerByteStartsNothing(u, c); }
    }
  }

  lemma OpenerByteStartsNothing(s: Display, c: byte)
    requires Consistent(s) && !s.dsmlActive && c != GT && c != 0x65
    ensures var t := OpenerByte(s, c);
      !t.dsmlActive && (t.parser == s.parser || t.parser.core.phase == P.Failed)
  {
    OpenerLengths();
    hide START, MISSING_BAR_START, INVOKE_OPENER, MISSING_BAR_INVOKE, BeginCall, GiveUp;
    var tail := if |s.startTail| < START_TAIL then s.startTail + [c] else s.startTail;
    var t := s.(startTail := tail);
    assert |tail| < START_TAIL ==> tail[|tail| - 1] == c;
    GiveUpKeeps(t);
  }
}
