// What stands behind printed calls in the batch that completes them (ds4_agent.c:1527-1533,
// 3349-3508, 7858-7893): quiet text changes nothing, and another opener with a byte behind
// it makes every call run again.

module ToolTail {
  import opened Bytes
  import opened DsmlTags
  import P = DsmlParse
  import D = DsmlStream
  import R = DsmlRoundTrip
  import opened TagSplitter
  import opened StreamDisplay
  import opened ToolRound
  import opened ToolText
  import opened ToolOrigin

  /** Text that shows no tag and no marker, set off from the calls by a blank. */
  ghost predicate Quiet(p: bytes) {
    TagFree(p) && MarkerFree(p) && (p == [] || IsBlank(p[0]))
  }

  /**
   * The calls wait, `seen` has followed them and `shown` of it has been shown; `old` is what
   * the marker detector held before.
   */
  ghost predicate Rests(s: Display, parser: D.State, old_: bytes, shown: bytes, seen: bytes) {
    && s.parser == parser && parser.core.phase == P.Done
    && !s.inThink && !s.postThinkGap && !s.dsmlActive && !s.dsmlIgnored && !s.dsmlInThink
    && s.plainTail == LastN(old_ + shown, DETECTOR) && shown + s.startTail == seen
    && (s.startTail == [] || (StartMatch(s.startTail) == Prefix && s.startTail[0] == LT))
  }

  /** Text without markers that starts with a blank completes no marker begun before it. */
  lemma QuietBehind(old_: bytes, x: bytes)
    requires MarkerFree(x) && x != [] && IsBlank(x[0])
    ensures !EndsInMarker(LastN(old_ + x, DETECTOR))
  {
    hide FindSub;
    forall m | m in MARKERS ensures !EndsWith(LastN(old_ + x, DETECTOR), m) {
      MarkersHaveNoBlank(m);
      SpansNothing(old_, x, m);
    }
  }

  lemma SpansNothing(old_: bytes, x: bytes, m: bytes)
    requires MarkerFree(x) && x != [] && IsBlank(x[0]) && m in MARKERS && NoBlank(m) && 0 < |m| <= DETECTOR
    ensures !EndsWith(LastN(old_ + x, DETECTOR), m)
  {
    hide FindSub, MARKERS;
    var t := old_ + x;
    var z := LastN(t, DETECTOR);
    if |m| <= |t| {
      assert z[|z| - |m|..] == t[|t| - |m|..];
      if |m| <= |x| {
        var k := |x| - |m|;
        FindSubNone(x, m);
        assert t[|t| - |m|..] == x[k..];
      } else {
        var k := |m| - |x|;
        assert !IsBlank(m[k]) && t[|t| - |m|..][k] == x[0];
      }
    }
  }

  lemma {:induction false} FlushResting(s: Display, old_: bytes, shown: bytes, bs: bytes)
    requires s.parser.core.phase != P.Failed && !s.inThink && !s.dsmlActive && !s.dsmlInThink
    requires s.plainTail == LastN(old_ + shown, DETECTOR) && MarkerFree(shown + bs)
    requires shown + bs != [] ==> IsBlank((shown + bs)[0])
    ensures var t := FlushBytes(s, bs); t == s.(sink := t.sink, plainTail := LastN(old_ + (shown + bs), DETECTOR))
    decreases |bs|
  {
    hide FindSub, EndsInMarker, Slide, LastN, MarkerFree;
    if bs == [] {
      assert shown + bs == shown;
    } else {
      var next := shown + [bs[0]];
      assert shown + bs == next + bs[1..] && next[0] == (shown + bs)[0];
      FreePrefix(next, bs[1..]);
      QuietBehind(old_, next);
      SlideIsLast(s.plainTail, old_ + shown, bs[0]);
      assert old_ + shown + [bs[0]] == old_ + next;
      FlushResting(NotePlain(Emit(s, Char(bs[0])), bs[0]), old_, next, bs[1..]);
    }
  }

  lemma RestByte(s: Display, parser: D.State, old_: bytes, shown: bytes, seen: bytes, c: byte) returns (next: bytes)
    requires Rests(s, parser, old_, shown, seen) && MarkerFree(seen + [c]) && IsBlank((seen + [c])[0])
    ensures Rests(StreamByte(s, c), parser, old_, next, seen + [c])
  {
    hide FindSub, EndsInMarker, FlushBytes, StartMatch, Slide, LastN, MarkerFree, OpenerByte;
    if s.startTail != [] || c == LT {
      next := RestOpener(s, parser, old_, shown, seen, c);
    } else {
      next := seen + [c];
      assert shown == seen by { assert shown + [] == shown; }
      QuietBehind(old_, next);
      SlideIsLast(s.plainTail, old_ + shown, c);
      assert old_ + shown + [c] == old_ + next && next + [] == next;
    }
  }

  lemma RestOpener(s: Display, parser: D.State, old_: bytes, shown: bytes, seen: bytes, c: byte) returns (next: bytes)
    requires Rests(s, parser, old_, shown, seen) && MarkerFree(seen + [c]) && IsBlank((seen + [c])[0])
    requires s.startTail != [] || c == LT
    ensures Rests(OpenerByte(s, c), parser, old_, next, seen + [c])
  {
    hide FindSub, EndsInMarker, FlushBytes, BeginCall, StartMatch, LastN, MarkerFree;
    MatchShape(s.startTail);
    MatchShape([LT]);
    var tail := s.startTail + [c];
    MatchShape(tail);
    assert shown + tail == seen + [c];
    WholeIsMarked(shown, tail);
    var t := s.(startTail := tail);
    match StartMatch(tail) {
      case Prefix =>
        next := shown;
      case NoMatch =>
        if |tail| > 1 && c == LT {
          assert tail[..|tail| - 1] == s.startTail;
          next := seen;
          FreePrefix(seen, [c]);
          FlushResting(t, old_, shown, s.startTail);
        } else {
          next := seen + [c];
          FlushResting(t, old_, shown, tail);
          assert next + [] == next;
        }
    }
  }

  /** The held bytes give way to a new opener. */
  lemma OpenerAgain(s: Display, parser: D.State, old_: bytes, shown: bytes, seen: bytes)
    requires Rests(s, parser, old_, shown, seen) && MarkerFree(seen) && (seen == [] || IsBlank(seen[0]))
    ensures Holding(StreamByte(s, LT), 1) && StreamByte(s, LT).parser == parser
  {
    hide FindSub, START, FlushBytes, BeginCall, StartMatch, LastN, MarkerFree;
    StartBytes();
    MatchShape(s.startTail);
    MatchShape([LT]);
    var tail := s.startTail + [LT];
    MatchShape(tail);
    assert START[..1] == [LT];
    if s.startTail != [] {
      assert tail[|tail| - 1] == LT && tail[..|tail| - 1] == s.startTail;
      FlushResting(s.(startTail := tail), old_, shown, s.startTail);
    }
  }

  // ---------------------------------------------------------------- driving the display

  lemma RestDrives(s: Display, parser: D.State, old_: bytes, shown: bytes, seen: bytes, p: bytes, more: bytes, finish: bool)
    returns (next: bytes, held: bytes)
    requires Rests(s, parser, old_, shown, seen) && MarkerFree(seen + p) && TagFree(p)
    requires seen + p != [] ==> IsBlank((seen + p)[0])
    requires more == [] || (more[0] == LT && |more| >= 8)
    ensures |held| <= |p| && p[|p| - |held|..] == held && (finish || more != [] ==> held == [])
    ensures exists t :: Rests(t, parser, old_, next, seen + p[..|p| - |held|])
                        && Drive(DISPLAY_MACHINE, s, p + more, finish) == if more == [] then (t, held) else Drive(DISPLAY_MACHINE, t, more, finish)
    decreases |p|
  {
    hide *;
    if p == [] {
      next, held := shown, [];
      assert p + more == more && seen + p[..0] == seen;
      DriveStep(s, more, finish);
    } else {
      var c := p[0];
      assert (p + more)[0] == c && (p + more)[1..] == p[1..] + more && seen + p == seen + [c] + p[1..];
      NoTagStartsEither(p, more);
      RestsOutside(s, parser, old_, shown, seen);
      if !finish && HeldBack(p + more) {
        HeldIsShort(p + more);
        next, held := shown, p;
        assert p + more == p && seen + p[..0] == seen;
        HeldStops(s, p);
      } else {
        FreePrefix(seen + [c], p[1..]);
        assert (seen + [c])[0] == (seen + p)[0];
        var mid := RestByte(s, parser, old_, shown, seen, c);
        TagFreeTail(p);
        next, held := RestDrives(StreamByte(s, c), parser, old_, mid, seen + [c], p[1..], more, finish);
        assert p[|p| - |held|..] == p[1..][|p| - 1 - |held|..];
        assert seen + p[..|p| - |held|] == seen + [c] + p[1..][..|p| - 1 - |held|];
        DriveStep(s, p + more, finish);
      }
    }
  }

  lemma RestsOutside(s: Display, parser: D.State, old_: bytes, shown: bytes, seen: bytes)
    requires Rests(s, parser, old_, shown, seen)
    ensures !s.dsmlActive
  {
  }

  lemma NoTagStartsEither(p: bytes, more: bytes)
    requires TagFree(p) && p != [] && (more == [] || more[0] == LT)
    ensures !(THINK_OPEN <= p + more) && !(THINK_CLOSE <= p + more)
  {
    hide THINK_OPEN, THINK_CLOSE, TagFree;
    if more == [] {
      assert p + more == p;
      NoTagStarts(p, [LT], p);
    } else {
      NoTagStarts(p, more, p + more);
    }
  }

  // ---------------------------------------------------------------- quiet text

  lemma RanRests(s: Display, d: R.Document)
    requires Ran(s, d)
    ensures Rests(s, s.parser, s.plainTail, [], [])
  {
    assert s.plainTail + [] == s.plainTail;
  }

  lemma RestsFinish(s: Display, parser: D.State, old_: bytes, shown: bytes, seen: bytes)
    requires Rests(s, parser, old_, shown, seen) && MarkerFree(seen) && (seen == [] || IsBlank(seen[0]))
    ensures var f := Finish(s); f.parser == parser && !f.dsmlInThink
  {
    hide FindSub, FlushBytes, StartMatch, LastN, MarkerFree;
    FlushResting(s, old_, shown, s.startTail);
  }

  lemma RestsWait(s: Display, parser: D.State, old_: bytes, shown: bytes, seen: bytes)
    requires Rests(s, parser, old_, shown, seen)
    ensures s.parser == parser && parser.core.phase == P.Done && !s.dsmlInThink
  {
  }

  /** Quiet text behind the calls leaves them as they are. */
  lemma QuietLeaves(s: Display, d: R.Document, p: bytes)
    requires Ran(s, d) && Quiet(p)
    ensures Leaves(s, p, R.Calls(d.calls))
  {
    hide DISPLAY_MACHINE, Drive, MarkerFree, TagFree, Rests, Finish, LastN, R.Calls, Ran;
    RanRests(s, d);
    RanCalls(s, d);
    assert [] + p == p && p + [] == p;
    var next, held := RestDrives(s, s.parser, s.plainTail, [], [], p, [], false);
    var t :| Rests(t, s.parser, s.plainTail, next, [] + p[..|p| - |held|]) && Drive(DISPLAY_MACHINE, s, p, false) == (t, held);
    var last, none := RestDrives(s, s.parser, s.plainTail, [], [], p, [], true);
    var u :| Rests(u, s.parser, s.plainTail, last, [] + p[..|p| - |none|]) && Drive(DISPLAY_MACHINE, s, p, true) == (u, none);
    assert [] + p[..|p|] == p;
    DriveSplits(DISPLAY_MACHINE, s, p, [], true);
    RestsWait(t, s.parser, s.plainTail, next, [] + p[..|p| - |held|]);
    RestsFinish(u, s.parser, s.plainTail, last, p);
  }

  lemma RanCalls(s: Display, d: R.Document)
    requires Ran(s, d)
    ensures s.parser.core.calls == R.Calls(d.calls) && s.parser.core.phase == P.Done
  {
  }

  // ---------------------------------------------------------------- a second opener

  lemma RanIsFed(s: Display, d: R.Document)
    requires Writable(d) && Ran(s, d)
    ensures var x := R.Print(d); Fed(s.parser, x, |x|, 1) && START <= x && x[..|x|] == x && CallsOf(x) == R.Calls(d.calls)
  {
    hide START, R.Print, R.Calls, P.Parse, FindSub, R.WellSpaced, R.Printable;
    var x := R.Print(d);
    StanzaParses(d);
    assert x[0..] == x && x[..|x|] == x;
    FindSubExact(x, START, 0);
    DoneHasNoDraft(x, D.BEGIN);
    RepeatIs(CallsOf(x), 1);
  }

  /** The parser behind a second opener stands at the start of the first stanza again. */
  lemma SecondStart(p: D.State, x: bytes, n: nat)
    requires Fed(p, x, n, 1) && p.core.phase == P.Done
    ensures var q := D.Start(p).(closePrefix := false); Fed(q, x, n, 2) && P.Active(q.core)
  {
    hide START, P.Parse, Repeat;
    assert x[..n] <= p.raw + START;
  }

  lemma SecondByte(u: Display, c: byte)
    requires !u.dsmlIgnored && !u.dsmlInThink && D.Feed(u.parser, [c]).core.phase == P.Done
    ensures var t := FeedDsml(u, c);
      && t.parser == D.Feed(u.parser, [c]) && !t.dsmlInThink && !t.dsmlIgnored && !t.dsmlActive && t.startTail == u.startTail
  {
    hide D.Feed, START;
  }

  /** The bytes of an opener behind anything but thinking start a call. */
  lemma {:induction false} DriveGrow(s: Display, k: nat, c: byte)
    requires Holding(s, k)
    ensures Drive(DISPLAY_MACHINE, s, START[k..] + [c], false)
         == Drive(DISPLAY_MACHINE, BeginCall(s.(startTail := START), false), [c], false)
    decreases |START| - k
  {
    hide START, THINK_OPEN, THINK_CLOSE, HeldBack, StreamByte, BeginCall;
    StartBytes();
    var u := START[k..] + [c];
    assert u[0] == START[k] && u[1..] == START[k + 1..] + [c];
    NotHeld(u);
    OpenerGrows(s, k);
    if k + 1 < |START| {
      DriveGrow(s.(startTail := START[..k + 1]), k + 1, c);
    } else {
      assert u[1..] == [c];
    }
  }

  lemma DriveFeeds(u: Display, c: byte)
    requires u.dsmlActive
    ensures Drive(DISPLAY_MACHINE, u, [c], false) == (FeedDsml(u, c), [])
  {
    hide FeedDsml;
    assert [c][1..] == [];
  }

  lemma BeginsAgain(s: Display, k: nat)
    requires Holding(s, k)
    ensures var u := BeginCall(s.(startTail := START), false);
      && u.dsmlActive && !u.dsmlIgnored && !u.dsmlInThink && u.startTail == []
      && u.parser == D.Start(s.parser).(closePrefix := false)
  {
    hide START;
  }

  /** An opener and one byte make the parser read the finished stanza again. */
  lemma ReadsAgain(s: Display, p: D.State, k: nat, d: R.Document, c: byte)
    requires Writable(d) && Holding(s, k) && s.parser == p && p.core.phase == P.Done
    requires var x := R.Print(d); Fed(p, x, |x|, 1) && START <= x && x[..|x|] == x && CallsOf(x) == R.Calls(d.calls)
    ensures var t := FeedDsml(BeginCall(s.(startTail := START), false), c);
      && t.parser.core.phase == P.Done && !t.dsmlInThink && t.startTail == [] && !t.dsmlActive
      && t.parser.core.calls == R.Calls(d.calls) + R.Calls(d.calls)
  {
    hide START, R.Print, Writable, P.Parse, R.Calls, FeedDsml, BeginCall, Repeat, CallsOf, D.Feed, D.Start;
    var x := R.Print(d);
    BeginsAgain(s, k);
    SecondStart(p, x, |x|);
    var u := BeginCall(s.(startTail := START), false);
    FedAgain(u.parser, x, |x|, 2, c);
    SecondByte(u, c);
    RepeatIs(CallsOf(x), 1);
    RepeatIs(CallsOf(x), 2);
  }

  lemma NothingToFinish(t: Display)
    requires !t.dsmlActive && !t.dsmlInThink && t.startTail == []
    ensures StreamText(t, [], [], true).0 == t.(postThinkGap := false)
  {
    var nothing: bytes := [];
    assert nothing + nothing == nothing;
  }

  /** The canonical opener and a byte behind it. */
  function Again(c: byte): (r: bytes)
    ensures |r| > 8 && r[0] == LT && r[1..] == START[1..] + [c]
  {
    StartBytes();
    START + [c]
  }

  lemma AgainDrives(t: Display, parser: D.State, old_: bytes, shown: bytes, seen: bytes, c: byte)
    requires Rests(t, parser, old_, shown, seen) && MarkerFree(seen) && (seen == [] || IsBlank(seen[0]))
    ensures var s := StreamByte(t, LT);
      && Holding(s, 1) && s.parser == parser
      && Drive(DISPLAY_MACHINE, t, Again(c), false) == (FeedDsml(BeginCall(s.(startTail := START), false), c), [])
  {
    hide *;
    OpenerAgain(t, parser, old_, shown, seen);
    var s := StreamByte(t, LT);
    RestsOutside(t, parser, old_, shown, seen);
    AgainStarts(c);
    DriveStep(t, Again(c), false);
    DriveGrow(s, 1, c);
    BeginsAgain(s, 1);
    DriveFeeds(BeginCall(s.(startTail := START), false), c);
  }

  lemma AgainStarts(c: byte)
    ensures var u := Again(c); !(THINK_OPEN <= u) && !(THINK_CLOSE <= u) && !HeldBack(u)
  {
    hide START, THINK_OPEN, THINK_CLOSE;
    StartBytes();
    var u := START + [c];
    TagLengths();
    assert u == Again(c) && !HeldBack(u);
    NoTagAtStart(u, u);
  }

  lemma QuietFacts(p: bytes)
    requires Quiet(p)
    ensures TagFree(p) && MarkerFree(p) && (p == [] || IsBlank(p[0]))
  {
  }

  /** Behind quiet text, an opener and a byte leave every call to be run twice. */
  lemma AgainLeaves(s: Display, d: R.Document, p: bytes, c: byte)
    requires Writable(d) && Ran(s, d) && Quiet(p)
    ensures Leaves(s, p + Again(c), R.Calls(d.calls) + R.Calls(d.calls))
  {
    hide *;
    QuietFacts(p);
    RanRests(s, d);
    RanCalls(s, d);
    RanIsFed(s, d);
    assert [] + p == p;
    var next, held := RestDrives(s, s.parser, s.plainTail, [], [], p, Again(c), false);
    var t :| Rests(t, s.parser, s.plainTail, next, [] + p[..|p| - |held|])
             && Drive(DISPLAY_MACHINE, s, p + Again(c), false) == Drive(DISPLAY_MACHINE, t, Again(c), false);
    assert [] + p[..|p|] == p;
    AgainDrives(t, s.parser, s.plainTail, next, p, c);
    ReadsAgain(StreamByte(t, LT), s.parser, 1, d, c);
    var r := FeedDsml(BeginCall(StreamByte(t, LT).(startTail := START), false), c);
    NothingToFinish(r);
    LeavesIs(s, p + Again(c), r, R.Calls(d.calls) + R.Calls(d.calls));
  }

  lemma LeavesIs(s: Display, tail: bytes, r: Display, calls: seq<P.Call>)
    requires Drive(DISPLAY_MACHINE, s, tail, false) == (r, []) && StreamText(r, [], [], true).0 == r.(postThinkGap := false)
    requires r.parser.core.phase == P.Done && !r.dsmlInThink && r.parser.core.calls == calls
    ensures Leaves(s, tail, calls)
  {
    hide DISPLAY_MACHINE, Drive, StreamText;
  }

  // ---------------------------------------------------------------- answers

  /** Text behind the calls: quiet, and then perhaps another opener and a byte. */
  function Tail(p: bytes, again: Option<byte>): bytes {
    p + (if again.Some? then Again(again.value) else [])
  }

  /** The calls that run with it. */
  function Runs(d: R.Document, again: Option<byte>): seq<P.Call> {
    if again.Some? then R.Calls(d.calls) + R.Calls(d.calls) else R.Calls(d.calls)
  }

  lemma TailLeaves(d: R.Document, p: bytes, again: Option<byte>)
    requires Writable(d) && Quiet(p)
    ensures AlwaysLeaves(d, Tail(p, again), Runs(d, again))
  {
    hide Ran, Leaves, R.Calls, Quiet, Again, Writable;
    forall s: Display | Ran(s, d) ensures Leaves(s, Tail(p, again), Runs(d, again)) {
      if again.Some? {
        AgainLeaves(s, d, p, again.value);
      } else {
        QuietLeaves(s, d, p);
        assert p + [] == p;
      }
    }
  }

  lemma RunsDiffer(d: R.Document, again: Option<byte>)
    ensures Runs(d, again) == R.Calls(d.calls) <==> again.None? || R.Calls(d.calls) == []
  {
    hide R.Calls;
    var c := R.Calls(d.calls);
    if c != [] { assert |c + c| > |c|; }
  }

  /**
   * How often printed calls run. The batch that completes them may go on with quiet text,
   * and with another opener and a byte behind it. Decoded in time, they run once if there
   * is no such opener, and twice if there is one; so they run as printed if and only if
   * no opener and byte stand behind them in that batch, or there are none to run.
   */
  lemma CallsRunOnceExactly(thinking: bool, front: seq<Pass>, pieces: seq<Piece>, rest: seq<Pass>, max: nat,
                            th: bytes, prose: bytes, d: R.Document, p: bytes, again: Option<byte>)
    requires Writable(d) && Ordinary(thinking, th, prose) && Quiet(p)
    requires AllText(front) && OnlyText(pieces) && |Pieces(front)| + |pieces| < max
    requires |Concat(Texts(Pieces(front)))| < |Preface(thinking, th, prose) + R.Print(d)|
    requires Concat(Texts(Pieces(front) + pieces)) == Preface(thinking, th, prose) + R.Print(d) + Tail(p, again)
    ensures var outcome := Round(thinking, front + ([Batch(pieces)] + rest), max, false);
      && outcome == RunTools(Runs(d, again))
      && (outcome == RunTools(R.Calls(d.calls)) <==> again.None? || R.Calls(d.calls) == [])
  {
    hide *;
    TailLeaves(d, p, again);
    RunsDiffer(d, again);
    AnswerOutcome(thinking, front, pieces, false, rest, max, th, prose, d, Tail(p, again), Runs(d, again));
    NoEnd(pieces);
  }

  lemma NoEnd(pieces: seq<Piece>)
    ensures LastBatch(pieces, false) == pieces
  {
  }

  /**
   * A second opener repeats the calls: when a printed document, an opener and one more
   * byte arrive in one batch, every call of the document is run twice.
   */
  lemma SecondOpenerRunsTwice(d: R.Document, c: byte, max: nat)
    requires Writable(d) && max > 1
    ensures Round(false, [Batch([Text(R.Print(d) + (START + [c]))])], max, false) == RunTools(R.Calls(d.calls) + R.Calls(d.calls))
  {
    hide *;
    var text := R.Print(d) + (START + [c]);
    var pieces := [Text(text)];
    OneText(text);
    OneText([]);
    NoPreface();
    EmptyIsQuiet();
    PrintIsLong(d);
    NoPasses();
    OnlyAgain(d, c);
    assert [] + pieces == pieces;
    CallsRunOnceExactly(false, [], pieces, [], max, [], [], d, [], Some(c));
    assert [] + ([Batch(pieces)] + []) == [Batch(pieces)];
  }

  lemma NoPasses()
    ensures Pieces([]) == [] && AllText([]) && forall t :: OnlyText([Text(t)])
  {
  }

  lemma OnlyAgain(d: R.Document, c: byte)
    ensures Tail([], Some(c)) == START + [c] && Runs(d, Some(c)) == R.Calls(d.calls) + R.Calls(d.calls)
  {
    hide START, R.Calls;
    assert [] + (START + [c]) == START + [c];
  }

  lemma EmptyIsQuiet()
    ensures Quiet([])
  {
    hide FindSub;
    NoPreface();
    assert Ordinary(false, [], []);
  }
}
