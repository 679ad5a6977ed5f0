// One generation round of a user turn (ds4_agent.c:7786-7974): decode, possibly
// several tokens at a time, stream the text, and decide whether a tool runs.
// Sampling and evaluation are what the model does; the round is given their results.

module ToolRound {
  import opened Bytes
  import P = DsmlParse
  import D = DsmlStream
  import opened TagSplitter
  import opened S = StreamDisplay
  import opened StreamRenderer

  const INCOMPLETE: bytes := Ascii("incomplete DSML tool call")
  const PARSE_ERROR: bytes := Ascii("parse error")

  datatype Piece = Eos | Text(text: bytes)

  /** What one pass of the decode loop meets. */
  datatype Pass = Interrupt | Stop | EvalFailed | Batch(pieces: seq<Piece>)

  datatype Outcome = Broken | Interrupted | Idle | RunTools(calls: seq<P.Call>) | ToolError(message: bytes)

  datatype Loop = Loop(
    display: Display, held: bytes, transcript: seq<bytes>, gotTool: bool, malformed: bool, broken: bool)

  function Begin(thinking: bool): Loop {
    Loop(NEW.(inThink := thinking), [], [], false, false, false)
  }

  /** `worker_record_decoded_token`. */
  function Record(l: Loop, text: bytes): Loop {
    var (s, held) := StreamText(l.display, l.held, text, false);
    l.(display := s, held := held, transcript := l.transcript + [text])
  }

  /** The tokens of one evaluation; true if the round stops with them. */
  function DecodeBatch(l: Loop, pieces: seq<Piece>, max: nat): (Loop, bool)
    decreases |pieces|
  {
    if pieces == [] then (l, false)
    else
      match pieces[0]
      case Eos => (l, true)
      case Text(text) =>
        var r := Record(l, text);
        if |r.transcript| >= max then (r, true) else DecodeBatch(r, pieces[1..], max)
  }

  function Decode(l: Loop, passes: seq<Pass>, max: nat): Loop
    decreases |passes|
  {
    if passes == [] || |l.transcript| >= max then l
    else
      match passes[0]
      case Interrupt => l
      case Stop => l
      case EvalFailed => l.(broken := true)
      case Batch(pieces) =>
        var (r, stop) := DecodeBatch(l, pieces, max);
        if stop then r
        else if r.display.parser.core.phase == P.Done then r.(gotTool := true)
        else if r.display.parser.core.phase == P.Failed then r.(malformed := true)
        else if r.display.dsmlInThink then r.(malformed := true)
        else Decode(r, passes[1..], max)
  }

  function Decide(l: Loop, s: Display, interrupted: bool): Outcome {
    if l.broken then Broken
    else if interrupted then Interrupted
    else if s.dsmlInThink then ToolError(IN_THINKING)
    else if l.malformed || s.parser.core.phase == P.Failed then
      ToolError(if s.parser.core.error != [] then s.parser.core.error else PARSE_ERROR)
    else if l.gotTool then RunTools(s.parser.core.calls)
    else if P.Active(s.parser.core) then ToolError(INCOMPLETE)
    else Idle
  }

  function Round(thinking: bool, passes: seq<Pass>, max: nat, interrupted: bool): Outcome {
    var l := Decode(Begin(thinking), passes, max);
    Decide(l, StreamText(l.display, l.held, [], true).0, interrupted)
  }

  /**
   * What a round comes to, exactly: a failed evaluation and then an interrupt come first; a
   * call in thinking, malformed markup and an unfinished stanza each give their own error,
   * in this order; a finished stanza runs its calls; and anything else is idle.
   */
  lemma OutcomeExactly(l: Loop, s: Display, interrupted: bool)
    ensures var out := Decide(l, s, interrupted); var open := !l.broken && !interrupted;
      var bad := l.malformed || s.parser.core.phase == P.Failed;
      && (out.Broken? <==> l.broken) && (out.Interrupted? <==> !l.broken && interrupted)
      && (open && s.dsmlInThink ==> out == ToolError(IN_THINKING))
      && (open && !s.dsmlInThink && bad ==>
            out == ToolError(if s.parser.core.error == [] then PARSE_ERROR else s.parser.core.error))
      && (open && !s.dsmlInThink && !bad && l.gotTool ==> out == RunTools(s.parser.core.calls))
      && (open && !s.dsmlInThink && !bad && !l.gotTool ==>
            out == if s.parser.core.phase in {P.Structural, P.ParamValue} then ToolError(INCOMPLETE) else Idle)
      && (out.Idle? <==> open && !s.dsmlInThink && !bad && !l.gotTool && s.parser.core.phase in {P.Search, P.Done})
  {
    hide IN_THINKING, INCOMPLETE, PARSE_ERROR;
  }

  // ---------------------------------------------------------------- what ends the loop

  /** The loop gets past the first `n` evaluations: each is a batch, and none of them ends the round. */
  ghost predicate GetsPast(l: Loop, passes: seq<Pass>, n: nat, max: nat)
    decreases n
  {
    n == 0 || (n <= |passes| && |l.transcript| < max && passes[0].Batch?
               && var (r, stop) := DecodeBatch(l, passes[0].pieces, max);
                  !stop && !D.Final(r.display.parser.core.phase) && !r.display.dsmlInThink && GetsPast(r, passes[1..], n - 1, max))
  }

  /** The loop behind the first `n` evaluations. */
  ghost function Behind(l: Loop, passes: seq<Pass>, n: nat, max: nat): Loop
    requires GetsPast(l, passes, n, max)
    decreases n
  {
    if n == 0 then l else Behind(DecodeBatch(l, passes[0].pieces, max).0, passes[1..], n - 1, max)
  }

  lemma {:induction false} DecodeGoesOn(l: Loop, passes: seq<Pass>, n: nat, max: nat)
    requires GetsPast(l, passes, n, max) && n <= |passes|
    ensures Decode(l, passes, max) == Decode(Behind(l, passes, n, max), passes[n..], max)
    ensures Decode(l, passes[..n], max) == Behind(l, passes, n, max)
    ensures Behind(l, passes, n, max).broken == l.broken
    decreases n
  {
    hide DecodeBatch;
    if n == 0 {
      assert passes[0..] == passes;
    } else {
      var r := DecodeBatch(l, passes[0].pieces, max).0;
      BatchBreaksNothing(l, passes[0].pieces, max);
      DecodeGoesOn(r, passes[1..], n - 1, max);
      assert passes[1..][n - 1..] == passes[n..] && passes[..n][1..] == passes[1..][..n - 1];
    }
  }

  lemma {:induction false} BatchBreaksNothing(l: Loop, pieces: seq<Piece>, max: nat)
    ensures DecodeBatch(l, pieces, max).0.broken == l.broken
    decreases |pieces|
  {
    hide StreamText;
    if pieces != [] && pieces[0].Text? { BatchBreaksNothing(Record(l, pieces[0].text), pieces[1..], max); }
  }

  /**
   * How a round ends at an evaluation that the loop reaches: one that fails breaks it; at an
   * interrupt or a stop, or at the limit, it comes to what it would have come to if nothing
   * more had been asked for. What would have followed is never looked at.
   */
  lemma RoundEnds(thinking: bool, passes: seq<Pass>, n: nat, max: nat, interrupted: bool)
    requires n < |passes| && GetsPast(Begin(thinking), passes, n, max)
    ensures var full := |Behind(Begin(thinking), passes, n, max).transcript| >= max;
      && (!full && passes[n].EvalFailed? ==> Round(thinking, passes, max, interrupted) == Broken)
      && (full || passes[n].Interrupt? || passes[n].Stop? ==>
            Round(thinking, passes, max, interrupted) == Round(thinking, passes[..n], max, interrupted)
            && !Round(thinking, passes, max, interrupted).Broken?)
  {
    hide StreamText, DecodeBatch, GetsPast, Behind;
    DecodeGoesOn(Begin(thinking), passes, n, max);
    assert passes[n..][0] == passes[n];
  }

  // ---------------------------------------------------------------- what the loop keeps

  /** The display is where the recorded text takes it, uncut. */
  ghost predicate Streamed(thinking: bool, l: Loop) {
    && (l.display, l.held) == StreamChunks(NEW.(inThink := thinking), [], l.transcript)
    && (l.gotTool ==> l.display.parser.core.phase == P.Done)
  }

  lemma {:induction false} StreamChunksAppend(s: Display, held: bytes, chunks: seq<bytes>, text: bytes)
    ensures var (t, h) := StreamChunks(s, held, chunks);
      StreamChunks(s, held, chunks + [text]) == StreamText(t, h, text, false)
    decreases |chunks|
  {
    hide StreamText;
    if chunks == [] {
      assert [text][1..] == [] && [] + [text] == [text];
    } else {
      var (t, h) := StreamText(s, held, chunks[0], false);
      StreamChunksAppend(t, h, chunks[1..], text);
      assert (chunks + [text])[1..] == chunks[1..] + [text];
    }
  }

  lemma {:induction false} DecodeBatchStreams(thinking: bool, l: Loop, pieces: seq<Piece>, max: nat)
    requires Streamed(thinking, l) && !l.gotTool
    ensures var r := DecodeBatch(l, pieces, max).0;
      Streamed(thinking, r) && !r.gotTool && r.malformed == l.malformed && r.broken == l.broken
    decreases |pieces|
  {
    hide StreamText, StreamChunks;
    if pieces != [] && pieces[0].Text? {
      var r := Record(l, pieces[0].text);
      StreamChunksAppend(NEW.(inThink := thinking), [], l.transcript, pieces[0].text);
      if |r.transcript| < max { DecodeBatchStreams(thinking, r, pieces[1..], max); }
    }
  }

  lemma {:induction false} DecodeStreams(thinking: bool, l: Loop, passes: seq<Pass>, max: nat)
    requires Streamed(thinking, l) && !l.gotTool
    ensures Streamed(thinking, Decode(l, passes, max))
    decreases |passes|
  {
    hide StreamText, StreamChunks, DecodeBatch;
    if passes != [] && |l.transcript| < max && passes[0].Batch? {
      DecodeBatchStreams(thinking, l, passes[0].pieces, max);
      var (r, stop) := DecodeBatch(l, passes[0].pieces, max);
      if !stop && !D.Final(r.display.parser.core.phase) && !r.display.dsmlInThink {
        DecodeStreams(thinking, r, passes[1..], max);
      }
    }
  }

  lemma RoundStreams(thinking: bool, passes: seq<Pass>, max: nat)
    ensures Streamed(thinking, Decode(Begin(thinking), passes, max))
  {
    DecodeStreams(thinking, Begin(thinking), passes, max);
  }

  lemma NewIsConsistent(thinking: bool)
    ensures Consistent(NEW.(inThink := thinking)) && Thinking(NEW.(inThink := true))
  {
  }

  // ---------------------------------------------------------------- thinking never runs tools

  /**
   * Whatever the model samples and however the tokens are batched: if at some point
   * of the recorded text the display is thinking outside a call, and a DSML marker
   * (so also any opener) follows before the next </think>, no tool runs, even if a
   * valid stanza follows later in the same batch.
   */
  lemma ThinkingNeverRunsTools(thinking: bool, passes: seq<Pass>, max: nat, interrupted: bool,
                               before: bytes, after: bytes, pre: bytes, mark: bytes, rest: bytes)
    requires Concat(Decode(Begin(thinking), passes, max).transcript) == before + after
    requires var (t, held) := Drive(DISPLAY_MACHINE, NEW.(inThink := thinking), before, false);
      t.inThink && !t.dsmlActive && held + after == pre + (mark + rest)
    requires mark in MARKERS && forall i :: 0 <= i < |pre| ==> !(THINK_CLOSE <= (pre + (mark + rest))[i..])
    ensures !Round(thinking, passes, max, interrupted).RunTools?
  {
    hide MARKERS, THINK_CLOSE, StreamChunks, Drive, Decode, Finish, Thinking;
    var start := NEW.(inThink := thinking);
    var l := Decode(Begin(thinking), passes, max);
    RoundStreams(thinking, passes, max);
    var (t, held) := Drive(DISPLAY_MACHINE, start, before, false);
    NewIsConsistent(thinking);
    DriveKeeps(start, before, false);
    assert Thinking(t) by { ThinkingIf(t); }
    DisplaySplitInvariance(start, [], l.transcript, []);
    assert Concat(l.transcript) + [] == before + after && [] + (before + after) == before + after;
    DriveSplits(DISPLAY_MACHINE, start, before, after, true);
    DriveToMarker(t, pre, mark, rest);
    var end := Drive(DISPLAY_MACHINE, t, held + after, true).0;
    DriveKeeps(t, held + after, true);
    FinishKeeps(end);
    assert StreamText(l.display, l.held, [], true) == StreamText(start, [], before + after, true);
  }

  lemma ThinkingIf(s: Display)
    requires Consistent(s) && s.inThink && !s.dsmlActive
    ensures Thinking(s)
  {
  }

  /** The plain reading: a marker before the first </think> of a thinking answer rules every tool out. */
  lemma MarkerBeforeFirstClose(passes: seq<Pass>, max: nat, interrupted: bool, pre: bytes, mark: bytes, rest: bytes)
    requires Concat(Decode(Begin(true), passes, max).transcript) == pre + (mark + rest)
    requires mark in MARKERS && forall i :: 0 <= i < |pre| ==> !(THINK_CLOSE <= (pre + (mark + rest))[i..])
    ensures !Round(true, passes, max, interrupted).RunTools?
  {
    hide MARKERS, THINK_CLOSE, Round, Decode;
    var text := pre + (mark + rest);
    assert [] + text == text;
    ThinkingNeverRunsTools(true, passes, max, interrupted, [], text, pre, mark, rest);
  }

  // ---------------------------------------------------------------- only finished calls run

  predicate NoOpenerEnd(h: bytes) {
    forall i :: 0 <= i < |h| ==> h[i] != GT && h[i] != 0x65
  }

  lemma TagBytes()
    ensures |THINK_OPEN| == 7 && |THINK_CLOSE| == 8
    ensures forall k :: 0 <= k < |THINK_OPEN| - 1 ==> THINK_OPEN[k] != GT && THINK_OPEN[k] != 0x65
    ensures forall k :: 0 <= k < |THINK_CLOSE| - 1 ==> THINK_CLOSE[k] != GT && THINK_CLOSE[k] != 0x65
    ensures forall k :: 0 < k < |THINK_OPEN| ==> THINK_OPEN[k] != LT
    ensures forall k :: 0 < k < |THINK_CLOSE| ==> THINK_CLOSE[k] != LT
    ensures THINK_OPEN[1] != THINK_CLOSE[1]
  {
  }

  lemma HeldShape(h: bytes)
    requires h == [] || HeldBack(h)
    ensures NoOpenerEnd(h) && !(THINK_OPEN <= h) && !(THINK_CLOSE <= h)
    ensures forall i :: 0 < i < |h| ==> h[i] != LT
  {
    hide THINK_OPEN, THINK_CLOSE;
    TagBytes();
    if h != [] {
      var tag := if Partial(h, THINK_OPEN) then THINK_OPEN else THINK_CLOSE;
      assert forall i :: 0 <= i < |h| ==> h[i] == tag[i];
    }
  }

  lemma {:induction false} DriveHeld(s: Display, h: bytes)
    requires Consistent(s) && !s.dsmlActive && NoOpenerEnd(h) && NoTagIn(h, |h|)
    ensures var t := Drive(DISPLAY_MACHINE, s, h, true).0;
      Consistent(t) && !t.dsmlActive && (t.parser == s.parser || t.parser.core.phase == P.Failed)
    decreases |h|
  {
    hide StreamByte, THINK_OPEN, THINK_CLOSE, Consistent;
    if h != [] {
      HeldByteStartsNothing(s, h[0]);
      var t := StreamByte(s, h[0]);
      assert h[0..] == h;
      DriveByte(s, h);
      forall i | 0 <= i < |h[1..]| ensures !(THINK_OPEN <= h[1..][i..]) && !(THINK_CLOSE <= h[1..][i..]) {
        assert h[1..][i..] == h[i + 1..];
      }
      if t.parser.core.phase == P.Failed { FailedStays(t, h[1..]); }
      DriveHeld(t, h[1..]);
    }
  }

  lemma {:induction false} FailedStays(s: Display, h: bytes)
    requires !s.dsmlActive && s.parser.core.phase == P.Failed && NoTagIn(h, |h|)
    ensures Drive(DISPLAY_MACHINE, s, h, true).0.parser.core.phase == P.Failed
    decreases |h|
  {
    hide THINK_OPEN, THINK_CLOSE;
    if h != [] {
      assert h[0..] == h;
      assert forall i :: 0 <= i < |h[1..]| ==> h[1..][i..] == h[i + 1..];
      FailedStays(s, h[1..]);
    }
  }

  lemma FinishDone(s: Display)
    requires Consistent(s) && !s.dsmlActive
    ensures var t := Finish(s);
      t.dsmlInThink || t.parser == s.parser || t.parser.core.phase == P.Failed
  {
    hide FlushStartTail;
    FlushTailKeeps(s);
  }

  /**
   * Tools run exactly when a finished stanza ended a batch in time, nobody
   * interrupted, and neither a call in thinking nor stray markup was seen, and the
   * calls are those of the finished stanza.
   */
  lemma ToolsRunExactly(thinking: bool, passes: seq<Pass>, max: nat, interrupted: bool)
    ensures var l := Decode(Begin(thinking), passes, max);
      var s := StreamText(l.display, l.held, [], true).0;
      && (Round(thinking, passes, max, interrupted).RunTools? <==>
            l.gotTool && !l.broken && !l.malformed && !interrupted && !s.dsmlInThink && s.parser.core.phase == P.Done)
      && (Round(thinking, passes, max, interrupted).RunTools? ==>
            l.display.parser.core.phase == P.Done
            && Round(thinking, passes, max, interrupted) == RunTools(l.display.parser.core.calls))
  {
    hide THINK_OPEN, THINK_CLOSE, HeldBack, Drive, StreamChunks, Decode, Finish, Consistent, NoOpenerEnd;
    var start := NEW.(inThink := thinking);
    var l := Decode(Begin(thinking), passes, max);
    RoundStreams(thinking, passes, max);
    if l.gotTool {
      NewIsConsistent(thinking);
      ReachedState(start, l.transcript);
      assert !l.display.dsmlActive by { DoneIsInactive(l.display); }
      HeldShape(l.held);
      HeldNoTag(l.held);
      assert l.held + [] == l.held;
      DriveHeld(l.display, l.held);
      FinishDone(Drive(DISPLAY_MACHINE, l.display, l.held, true).0);
    }
  }

  lemma DoneIsInactive(s: Display)
    requires Consistent(s) && s.parser.core.phase == P.Done
    ensures !s.dsmlActive
  {
  }

  lemma HeldNoTag(h: bytes)
    requires h == [] || HeldBack(h)
    ensures NoTagIn(h, |h|)
  {
    HeldShape(h);
    forall i | 0 <= i < |h| ensures !(THINK_OPEN <= h[i..]) && !(THINK_CLOSE <= h[i..]) {
      if i == 0 { assert h[0..] == h; } else { assert h[i..][0] == h[i]; }
    }
  }

  lemma {:induction false} ReachedFrom(s: Display, held: bytes, chunks: seq<bytes>)
    requires Consistent(s) && (held == [] || HeldBack(held))
    ensures var (t, h) := StreamChunks(s, held, chunks); Consistent(t) && (h == [] || HeldBack(h))
    decreases |chunks|
  {
    hide Drive, HeldBack, Consistent, DISPLAY_MACHINE;
    if chunks != [] {
      DriveKeeps(s, held + chunks[0], false);
      HeldIsPartial(DISPLAY_MACHINE, s, held + chunks[0]);
      var (t, h) := StreamText(s, held, chunks[0], false);
      ReachedFrom(t, h, chunks[1..]);
    }
  }

  lemma ReachedState(s: Display, chunks: seq<bytes>)
    requires Consistent(s)
    ensures var (t, h) := StreamChunks(s, [], chunks); Consistent(t) && (h == [] || HeldBack(h))
  {
    ReachedFrom(s, [], chunks);
  }

  // ---------------------------------------------------------------- the loop itself

  /** The stream object holds what the loop record says. */
  ghost predicate Holds(stream: Renderer, l: Loop)
    reads stream, stream.parser
  {
    && stream.Quiet() && stream.View() == l.display && stream.pending == l.held
    && !l.gotTool && !l.malformed && !l.broken
  }

  /** The tokens of one evaluation go through the stream one by one. */
  method RecordBatch(stream: Renderer, ghost l: Loop, generated: nat, pieces: seq<Piece>, max: nat)
    returns (count: nat, stop: bool, ghost r: Loop)
    requires Holds(stream, l) && generated == |l.transcript|
    modifies stream, stream.parser
    ensures Holds(stream, r) && count == |r.transcript|
    ensures (r, stop) == DecodeBatch(l, pieces, max)
  {
    hide StreamText;
    count, stop, r := generated, false, l;
    for j := 0 to |pieces|
      invariant Holds(stream, r) && count == |r.transcript| && !stop
      invariant DecodeBatch(r, pieces[j..], max) == DecodeBatch(l, pieces, max)
    {
      assert pieces[j..][1..] == pieces[j + 1..];
      if pieces[j].Eos? {
        stop := true;
        return;
      }
      stream.Text(pieces[j].text, false);
      r := Record(r, pieces[j].text);
      count := count + 1;
      if count >= max {
        stop := true;
        return;
      }
    }
  }

  /** What is decided once the text is finished. */
  method Conclude(stream: Renderer, ghost l: Loop, gotTool: bool, malformed: bool, interrupted: bool) returns (outcome: Outcome)
    requires stream.Quiet() && stream.View() == l.display && stream.pending == l.held
    requires gotTool == l.gotTool && malformed == l.malformed && !l.broken
    modifies stream, stream.parser
    ensures outcome == Decide(l, StreamText(l.display, l.held, [], true).0, interrupted)
  {
    hide StreamText, IN_THINKING, PARSE_ERROR, INCOMPLETE;
    stream.Text([], true);
    if interrupted { return Interrupted; }
    if stream.dsmlInThink { return ToolError(IN_THINKING); }
    if malformed || stream.parser.phase == P.Failed {
      return ToolError(if stream.parser.error != [] then stream.parser.error else PARSE_ERROR);
    }
    if gotTool { return RunTools(stream.parser.calls); }
    if stream.parser.phase == P.Structural || stream.parser.phase == P.ParamValue { return ToolError(INCOMPLETE); }
    return Idle;
  }

  /** The decode loop and the decision after it, in the streaming object. */
  method RunRound(thinking: bool, passes: seq<Pass>, max: nat, interrupted: bool) returns (outcome: Outcome)
    ensures outcome == Round(thinking, passes, max, interrupted)
  {
    hide StreamText, DecodeBatch, Decide;
    var stream := new Renderer(thinking);
    var generated, k := 0, 0;
    var gotTool, malformed := false, false;
    ghost var l := Begin(thinking);
    while generated < max && k < |passes|
      invariant k <= |passes| && fresh(stream) && fresh(stream.parser)
      invariant Holds(stream, l) && generated == |l.transcript| && !gotTool && !malformed
      invariant Decode(l, passes[k..], max) == Decode(Begin(thinking), passes, max)
      decreases |passes| - k
    {
      var pass := passes[k];
      assert passes[k..][0] == pass && passes[k..][1..] == passes[k + 1..];
      k := k + 1;
      if pass.Interrupt? || pass.Stop? { break; }
      if pass.EvalFailed? {
        assert Decide(l.(broken := true), StreamText(l.display, l.held, [], true).0, interrupted) == Broken by {
          BrokenDecides(l, interrupted);
        }
        return Broken;
      }
      var stop;
      generated, stop, l := RecordBatch(stream, l, generated, pass.pieces, max);
      if stop { break; }
      if stream.parser.phase == P.Done {
        gotTool := true;
        l := l.(gotTool := true);
        break;
      }
      if stream.parser.phase == P.Failed || stream.dsmlInThink {
        malformed := true;
        l := l.(malformed := true);
        break;
      }
    }
    outcome := Conclude(stream, l, gotTool, malformed, interrupted);
  }

  lemma BrokenDecides(l: Loop, interrupted: bool)
    ensures Decide(l.(broken := true), StreamText(l.display, l.held, [], true).0, interrupted) == Broken
  {
    hide StreamText;
  }
}
