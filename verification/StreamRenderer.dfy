// The streaming object (ds4_agent.c:3115-3508): the record whose flags, held bytes
// and parser are updated in place byte by byte, proved against StreamDisplay.

module StreamRenderer {
  import opened Bytes
  import opened DsmlTags
  import P = DsmlParse
  import D = DsmlStream
  import opened DsmlParser
  import opened TagSplitter
  import S = StreamDisplay

  class Renderer {
    const parser: Parser
    var inThink: bool
    var dsmlActive: bool
    var dsmlIgnored: bool
    var pending: bytes
    var startTail: bytes
    var plainTail: bytes
    var thinkTail: bytes
    var dsmlInThink: bool
    var reported: bool
    var postThinkGap: bool
    var sink: seq<S.Event>

    ghost predicate Valid()
      reads this, parser
    {
      parser.Valid() && |thinkTail| <= S.DETECTOR
    }

    /** A call is active exactly while the parser is inside a stanza. */
    ghost predicate Quiet()
      reads this, parser
    {
      Valid() && (dsmlActive <==> P.Active(parser.Core()))
    }

    ghost function View(): S.Display
      requires Valid()
      reads this, parser
    {
      S.Stream(parser.View(), inThink, dsmlActive, dsmlIgnored, startTail, plainTail, thinkTail,
               dsmlInThink, reported, postThinkGap, sink)
    }

    constructor (thinking: bool)
      ensures Quiet() && View() == S.NEW.(inThink := thinking) && pending == [] && fresh(parser)
    {
      parser := new Parser();
      inThink, dsmlActive, dsmlIgnored := thinking, false, false;
      pending, startTail, plainTail, thinkTail := [], [], [], [];
      dsmlInThink, reported, postThinkGap, sink := false, false, false, [];
    }

    method Emit(e: S.Event)
      requires Valid()
      modifies `sink
      ensures Valid() && View() == S.Emit(old(View()), e)
    {
      sink := sink + [e];
    }

    /** `agent_dsml_marker_detector_feed` on one of the two detectors. */
    method Detect(tail: bytes, c: byte) returns (next: bytes, found: bool)
      ensures next == S.Slide(tail, c) && found == S.EndsInMarker(next)
    {
      next := tail;
      if |next| == S.DETECTOR { next := next[1..]; }
      next := next + [c];
      found := S.EndsWith(next, DSML) || S.EndsWith(next, S.ASCII_MARKER) ||
        S.EndsWith(next, S.MISSING_OPEN) || S.EndsWith(next, S.MISSING_CLOSE);
    }

    method NoteThinking(c: byte)
      requires Valid()
      modifies `thinkTail, `dsmlInThink
      ensures Valid() && View() == S.NoteThinking(old(View()), c)
    {
      hide S.EndsInMarker, S.Slide;
      if !inThink || dsmlInThink { return; }
      var found;
      thinkTail, found := Detect(thinkTail, c);
      if found { dsmlInThink := true; }
    }

    method Malformed(what: bytes)
      requires Quiet() && !dsmlActive
      modifies this, parser
      ensures Quiet() && pending == old(pending) && View() == S.Malformed(old(View()), what)
    {
      if parser.phase == P.Failed { return; }
      parser.SetError(what);
      Emit(S.CallMalformed(what));
    }

    method NotePlain(c: byte)
      requires Quiet()
      modifies this, parser
      ensures Quiet() && pending == old(pending) && View() == S.NotePlain(old(View()), c)
    {
      hide S.EndsInMarker, S.Slide, S.STRAY_MARKUP;
      if parser.phase == P.Failed { return; }
      if dsmlActive || inThink || dsmlInThink { return; }
      var found;
      plainTail, found := Detect(plainTail, c);
      if found { Malformed(S.STRAY_MARKUP); }
    }

    method FlushBytes(bs: bytes)
      requires Quiet()
      modifies this, parser
      ensures Quiet() && pending == old(pending) && View() == S.FlushBytes(old(View()), bs)
    {
      hide S.NotePlain;
      for i := 0 to |bs|
        invariant Quiet() && pending == old(pending)
        invariant S.FlushBytes(View(), bs[i..]) == S.FlushBytes(old(View()), bs)
      {
        assert bs[i..][0] == bs[i] && bs[i..][1..] == bs[i + 1..];
        Emit(S.Char(bs[i]));
        NotePlain(bs[i]);
        if parser.phase == P.Failed { return; }
      }
    }

    method FlushStartTail()
      requires Quiet()
      modifies this, parser
      ensures Quiet() && pending == old(pending) && View() == S.FlushStartTail(old(View()))
    {
      hide S.FlushBytes;
      if startTail == [] { return; }
      postThinkGap := false;
      FlushBytes(startTail);
      startTail := [];
    }

    method FinishIgnored(why: bytes)
      requires Valid()
      modifies this, parser
      ensures Quiet() && pending == old(pending) && View() == S.FinishIgnored(old(View()), why)
    {
      dsmlInThink := true;
      reported := true;
      Emit(S.CallIgnored(why));
      parser.Reset();
      dsmlActive := false;
      dsmlIgnored := false;
    }

    /** The end of a finished or broken stanza. */
    method Settle()
      requires Valid()
      modifies this, parser
      ensures Valid() && pending == old(pending) && View() == S.Settle(old(View()))
    {
      hide S.IN_THINKING, S.MALFORMED_IN_THINKING, S.FinishIgnored;
      if parser.phase == P.Done {
        if dsmlIgnored {
          FinishIgnored(S.IN_THINKING);
        } else {
          Emit(S.ToolDone);
          dsmlActive := false;
        }
      } else if parser.phase == P.Failed {
        if dsmlIgnored {
          FinishIgnored(S.MALFORMED_IN_THINKING);
        } else {
          Emit(S.ToolFailed(parser.error));
          dsmlActive := false;
        }
      }
    }

    /** `agent_stream_feed_dsml_byte`. */
    method FeedDsmlByte(c: byte)
      requires Quiet() && (parser.phase == P.Search ==> |parser.searchTail| + 1 < |START|)
      modifies this, parser
      ensures Quiet() && pending == old(pending) && View() == S.FeedDsml(old(View()), c)
    {
      hide D.Feed, S.Settle, START;
      S.FeedDsmlKeeps(View(), c);
      parser.Feed([c]);
      if !dsmlIgnored { Emit(S.ToolByte(c)); }
      Settle();
    }

    method FeedDsmlBytes(bs: bytes)
      requires Quiet() && parser.phase != P.Search && |bs| + 1 < |START|
      modifies this, parser
      ensures Quiet() && pending == old(pending) && View() == S.FeedDsmlBytes(old(View()), bs)
    {
      hide S.FeedDsml, START;
      for i := 0 to |bs|
        invariant Quiet() && pending == old(pending)
        invariant parser.phase == P.Search ==> |parser.searchTail| + |bs| - i < |START|
        invariant S.FeedDsmlBytes(View(), bs[i..]) == S.FeedDsmlBytes(old(View()), bs)
      {
        assert bs[i..][0] == bs[i] && bs[i..][1..] == bs[i + 1..];
        S.FeedDsmlKeeps(View(), bs[i]);
        FeedDsmlByte(bs[i]);
      }
    }

    /** `agent_stream_start_dsml`. */
    method StartDsml(ignored: bool)
      requires Quiet() && !dsmlActive
      modifies this, parser
      ensures Quiet() && pending == old(pending) && View() == S.StartDsml(old(View()), ignored)
      ensures parser.phase == P.Structural
    {
      hide START;
      S.StartIsSound(parser.View());
      dsmlActive := true;
      dsmlIgnored := ignored;
      if ignored { dsmlInThink := true; }
      startTail := [];
      postThinkGap := false;
      parser.Start();
      if !ignored { Emit(S.ToolStarted); }
    }

    method BeginCall(implicitInvoke: bool)
      requires Quiet() && !dsmlActive
      modifies this, parser
      ensures Quiet() && pending == old(pending) && View() == S.BeginCall(old(View()), implicitInvoke)
    {
      S.OpenerLengths();
      hide START, S.StartDsml, S.FeedDsmlBytes, S.INVOKE_OPENER;
      StartDsml(inThink);
      if implicitInvoke { FeedDsmlBytes(S.INVOKE_OPENER); }
    }

    method GiveUp()
      requires Quiet() && !dsmlActive
      modifies this, parser
      ensures Quiet() && pending == old(pending) && View() == S.GiveUp(old(View()))
    {
      hide S.FlushBytes, S.FlushStartTail;
      if |startTail| > 1 && startTail[|startTail| - 1] == LT {
        postThinkGap := false;
        FlushBytes(startTail[..|startTail| - 1]);
        if parser.phase == P.Failed {
          startTail := [];
          return;
        }
        startTail := [LT];
        return;
      }
      FlushStartTail();
    }

    /** The part of `agent_stream_normal_byte` that holds a possible opener. */
    method OpenerByte(c: byte)
      requires Quiet() && !dsmlActive
      modifies this, parser
      ensures Quiet() && pending == old(pending) && View() == S.OpenerByte(old(View()), c)
    {
      hide S.StartMatch, S.BeginCall, S.GiveUp;
      if |startTail| < S.START_TAIL { startTail := startTail + [c]; }
      var m := S.StartMatch(startTail);
      if m.Whole? {
        BeginCall(m.implicitInvoke);
      } else if m.NoMatch? {
        GiveUp();
      }
    }

    /** `agent_stream_normal_byte`. */
    method NormalByte(c: byte)
      requires Quiet() && !dsmlActive
      modifies this, parser
      ensures Quiet() && pending == old(pending) && View() == S.NormalByte(old(View()), c)
    {
      hide S.NoteThinking, S.OpenerByte, S.NotePlain;
      if parser.phase == P.Failed { return; }
      assert S.NoteThinking(View(), c).dsmlActive == dsmlActive by { NoteKeeps(View(), c); }
      NoteThinking(c);
      if postThinkGap && IsBlank(c) { return; }
      if startTail != [] || c == LT {
        OpenerByte(c);
        return;
      }
      postThinkGap := false;
      Emit(S.Char(c));
      NotePlain(c);
    }

    lemma NoteKeeps(s: S.Display, c: byte)
      ensures S.NoteThinking(s, c).dsmlActive == s.dsmlActive
    {
    }

    /** What `agent_stream_text` does at an opening tag. */
    method OpenThink()
      requires Quiet() && !dsmlActive
      modifies this, parser
      ensures Quiet() && pending == old(pending) && View() == S.OpenThink(old(View()))
    {
      hide S.FlushStartTail;
      FlushStartTail();
      postThinkGap := false;
      inThink := true;
      Emit(S.ThinkOpened);
    }

    /** What `agent_stream_text` does at a closing tag. */
    method CloseThink()
      requires Quiet() && !dsmlActive
      modifies this, parser
      ensures Quiet() && pending == old(pending) && View() == S.CloseThink(old(View()))
    {
      hide S.FlushStartTail;
      FlushStartTail();
      inThink := false;
      Emit(S.ThinkClosed);
      postThinkGap := true;
    }

    method StreamByte(c: byte)
      requires Quiet()
      modifies this, parser
      ensures Quiet() && pending == old(pending) && View() == S.StreamByte(old(View()), c)
    {
      hide S.FeedDsml, S.NormalByte;
      if dsmlActive { FeedDsmlByte(c); } else { NormalByte(c); }
    }

    /** `agent_stream_text`. */
    method Text(text: bytes, finish: bool)
      requires Quiet()
      modifies this, parser
      ensures Valid() && (!finish ==> Quiet())
      ensures (View(), pending) == S.StreamText(old(View()), old(pending), text, finish)
    {
      hide S.Finish;
      Fragment(pending + text, finish);
      if finish { FinishText(); }
    }

    /** The loop of `agent_stream_text` over the pending bytes and the new ones. */
    method Fragment(buf: bytes, finish: bool)
      requires Quiet()
      modifies this, parser
      ensures Quiet()
      ensures (View(), pending) == Drive(S.DISPLAY_MACHINE, old(View()), buf, finish)
    {
      hide THINK_OPEN, THINK_CLOSE, HeldBack, S.OpenThink, S.CloseThink, S.StreamByte, S.DISPLAY_MACHINE, Drive;
      TagLengths();
      pending := [];
      var i := 0;
      while i < |buf|
        invariant 0 <= i <= |buf| && Quiet() && pending == []
        invariant Drive(S.DISPLAY_MACHINE, View(), buf[i..], finish) == Drive(S.DISPLAY_MACHINE, old(View()), buf, finish)
      {
        var cur := buf[i..];
        S.DriveStep(View(), cur, finish);
        if !dsmlActive && THINK_OPEN <= cur {
          OpenThink();
          assert cur[|THINK_OPEN|..] == buf[i + |THINK_OPEN|..];
          i := i + |THINK_OPEN|;
        } else if !dsmlActive && THINK_CLOSE <= cur {
          CloseThink();
          assert cur[|THINK_CLOSE|..] == buf[i + |THINK_CLOSE|..];
          i := i + |THINK_CLOSE|;
        } else if !finish && !dsmlActive && HeldBack(cur) {
          ghost var shown := View();
          pending := cur;
          assert View() == shown;
          return;
        } else {
          StreamByte(buf[i]);
          assert cur[1..] == buf[i + 1..];
          i := i + 1;
        }
      }
      assert buf[i..] == [];
      S.DriveStep(View(), [], finish);
    }

    method FinishText()
      requires Quiet()
      modifies this, parser
      ensures Valid() && pending == old(pending) && View() == S.Finish(old(View()))
    {
      hide S.FlushStartTail, S.IN_THINKING;
      FlushStartTail();
      postThinkGap := false;
      if dsmlActive {
        if dsmlIgnored {
          FinishIgnored(S.IN_THINKING);
        } else {
          Emit(S.ToolInterrupted);
          dsmlActive := false;
        }
      }
      if dsmlInThink && !reported { FinishIgnored(S.IN_THINKING); }
    }
  }
}
