// When the calls of an answer run once (ds4_agent.c:1527-1560, 3267-3508): exactly when no
// further opener is accepted behind the stanza that holds them, in any text.

module ToolOnce {
  import opened Bytes
  import opened DsmlTags
  import P = DsmlParse
  import D = DsmlStream
  import R = DsmlRoundTrip
  import opened TagSplitter
  import opened StreamDisplay
  import opened ToolRound
  import opened ToolText
  import opened Openers
  import opened ToolOrigin

  // ---------------------------------------------------------------- calls that are started

  lemma {:induction false} DriveStarts(s: Display, buf: bytes)
    ensures Starts(Drive(DISPLAY_MACHINE, s, buf, false).0.sink) >= Starts(s.sink)
    decreases |buf|
  {
    hide *;
    TagLengths();
    DriveStep(s, buf, false);
    if buf == [] {
    } else if !s.dsmlActive && THINK_OPEN <= buf {
      TagStarts(s);
      DriveStarts(OpenThink(s), buf[|THINK_OPEN|..]);
    } else if !s.dsmlActive && THINK_CLOSE <= buf {
      TagStarts(s);
      DriveStarts(CloseThink(s), buf[|THINK_CLOSE|..]);
    } else if !s.dsmlActive && HeldBack(buf) {
    } else {
      ByteStarts(s, buf[0]);
      DriveStarts(StreamByte(s, buf[0]), buf[1..]);
    }
  }

  // ---------------------------------------------------------------- the display behind finished calls

  /** Calls wait to be run, and nothing rules them out. */
  ghost predicate Waits(s: Display) {
    && Consistent(s) && !Caught(s) && s.parser.core.phase == P.Done && !s.dsmlActive && !s.dsmlIgnored
    && (s.startTail == [] || StartMatch(s.startTail) == Prefix)
  }

  ghost predicate StillWaits(s: Display, t: Display, held: bytes, gap: bool) {
    Waits(t) && Starts(t.sink) == Starts(s.sink) && t.startTail == held && t.postThinkGap == gap
  }

  /** What a byte behind finished calls does, unless it rules them out. */
  ghost predicate Scanned(s: Display, c: byte, t: Display) {
    || Caught(t)
    || if s.postThinkGap && IsBlank(c) then StillWaits(s, t, s.startTail, true)
       else match StartMatch(s.startTail + [c])
         case Whole(_) => Starts(t.sink) > Starts(s.sink)
         case Prefix => StillWaits(s, t, s.startTail + [c], s.postThinkGap)
         case NoMatch => StillWaits(s, t, if c == LT then [LT] else [], false)
  }

  lemma ScanOpener(s: Display, c: byte)
    requires Waits(s) && !(s.postThinkGap && IsBlank(c)) && (s.startTail != [] || c == LT)
    ensures Scanned(s, c, OpenerByte(s, c))
  {
    hide StartMatch, BeginCall, GiveUp, Starts, START;
    MatchShape(s.startTail);
    MatchShape([LT]);
    var tail := s.startTail + [c];
    var t := s.(startTail := tail);
    assert tail[|tail| - 1] == c;
    match StartMatch(tail) {
      case Prefix =>
      case Whole(implicitInvoke) =>
        BeginCallKeeps(t, implicitInvoke);
        BeginStarts(t, implicitInvoke);
      case NoMatch =>
        SameParser(s, t);
        GiveUpKeeps(t);
        GiveUpCounts(t);
        GivenUp(t, c);
    }
  }

  lemma ScanShown(s: Display, c: byte)
    requires Waits(s) && s.startTail == [] && c != LT && !(s.postThinkGap && IsBlank(c))
    ensures Scanned(s, c, NotePlain(Emit(s.(postThinkGap := false), Char(c)), c))
  {
    hide StartMatch, Starts, NotePlain;
    var t := s.(postThinkGap := false);
    FlushOne(t, c);
    FlushCounts(t, [c]);
    FlushKeeps(t, [c]);
    NotePlainTail(Emit(t, Char(c)), c);
    OtherByte(c);
    assert [] + [c] == [c];
  }

  lemma ScanByte(s: Display, c: byte)
    requires Waits(s)
    ensures Consistent(StreamByte(s, c)) && Scanned(s, c, StreamByte(s, c))
  {
    hide Starts, NotePlain, OpenerByte, NoteThinking, StartMatch;
    StreamByteKeeps(s, c);
    ThinkingNoted(s, c);
    var n := NoteThinking(s, c);
    if n.dsmlInThink {
      StaysInThink(n, c);
    } else if n.postThinkGap && IsBlank(c) {
    } else if n.startTail != [] || c == LT {
      ScanOpener(n, c);
    } else {
      ScanShown(n, c);
    }
  }

  lemma StaysInThink(n: Display, c: byte)
    requires n.dsmlInThink && Consistent(n) && !n.dsmlActive
    ensures OpenerByte(n, c).dsmlInThink && NotePlain(Emit(n.(postThinkGap := false), Char(c)), c).dsmlInThink
  {
    hide OpenerByte, NotePlain;
    OpenerByteKeeps(n, c);
    FlushOne(n.(postThinkGap := false), c);
    FlushKeeps(n.(postThinkGap := false), [c]);
  }

  lemma ScanTags(s: Display)
    requires Waits(s)
    ensures var t := OpenThink(s); Consistent(t) && (Caught(t) || StillWaits(s, t, [], false))
    ensures var t := CloseThink(s); Consistent(t) && (Caught(t) || StillWaits(s, t, [], true))
  {
    hide FlushStartTail, Starts, StartMatch;
    TagsKeep(s);
    TagStarts(s);
    FlushTailKeeps(s);
    FlushTailCounts(s);
  }

  /** Behind finished calls, calls are started again exactly when the text reopens, unless they are ruled out. */
  lemma {:induction false} DriveScans(s: Display, buf: bytes)
    requires Waits(s)
    ensures var t := Drive(DISPLAY_MACHINE, s, buf, false).0;
      Caught(t) || (Starts(t.sink) > Starts(s.sink) <==> Reopens(s.startTail, s.postThinkGap, buf))
    decreases |buf|, 0
  {
    hide *;
    TagLengths();
    DriveStep(s, buf, false);
    ReopensStep(s.startTail, s.postThinkGap, buf);
    WaitsFacts(s);
    if buf == [] {
    } else if THINK_OPEN <= buf {
      ScanTags(s);
      DriveScansOn(s, OpenThink(s), [], false, buf[|THINK_OPEN|..]);
    } else if THINK_CLOSE <= buf {
      ScanTags(s);
      DriveScansOn(s, CloseThink(s), [], true, buf[|THINK_CLOSE|..]);
    } else if HeldBack(buf) {
      PartOpensNothing(s.startTail, s.postThinkGap, buf);
    } else {
      var c := buf[0];
      ScanByte(s, c);
      var t := StreamByte(s, c);
      if !Caught(t) { ScannedCases(s, c, t); }
      if !Caught(t) && !(s.postThinkGap && IsBlank(c)) && StartMatch(s.startTail + [c]).Whole? {
        DriveStarts(t, buf[1..]);
      } else if s.postThinkGap && IsBlank(c) {
        DriveScansOn(s, t, s.startTail, true, buf[1..]);
      } else if StartMatch(s.startTail + [c]) == Prefix {
        DriveScansOn(s, t, s.startTail + [c], s.postThinkGap, buf[1..]);
      } else {
        DriveScansOn(s, t, if c == LT then [LT] else [], false, buf[1..]);
      }
    }
  }

  lemma WaitsFacts(s: Display)
    requires Waits(s)
    ensures !s.dsmlActive && (s.startTail == [] || StartMatch(s.startTail) == Prefix)
  {
  }

  lemma ScannedCases(s: Display, c: byte, t: Display)
    requires Scanned(s, c, t) && !Caught(t)
    ensures s.postThinkGap && IsBlank(c) ==> StillWaits(s, t, s.startTail, true)
    ensures !(s.postThinkGap && IsBlank(c)) ==>
              match StartMatch(s.startTail + [c])
              case Whole(_) => Starts(t.sink) > Starts(s.sink)
              case Prefix => StillWaits(s, t, s.startTail + [c], s.postThinkGap)
              case NoMatch => StillWaits(s, t, if c == LT then [LT] else [], false)
  {
  }

  lemma {:induction false} DriveScansOn(s: Display, t: Display, held: bytes, gap: bool, rest: bytes)
    requires Consistent(t) && (Caught(t) || StillWaits(s, t, held, gap))
    ensures var r := Drive(DISPLAY_MACHINE, t, rest, false).0;
      && (Caught(t) ==> Caught(r))
      && (Caught(r) || (Starts(r.sink) > Starts(s.sink) <==> Reopens(held, gap, rest)))
    decreases |rest|, 1
  {
    hide DISPLAY_MACHINE, Drive, Consistent, Caught, Waits, Starts, Reopens;
    DriveKeeps(t, rest, false);
    if !Caught(t) { DriveScans(t, rest); }
  }

  // ---------------------------------------------------------------- the end of the first stanza

  /** The stanza of a cut, with `m` bytes behind its opener. */
  function Head(o: Opening, m: nat): bytes
    requires m <= |o.behind|
  {
    Stanza(o.(behind := o.behind[..m]))
  }

  /** The stanza ends with its `m`th byte. */
  ghost predicate EndsAt(o: Opening, m: nat) {
    && m <= |o.behind| && P.Parse(Head(o, m), D.BEGIN).phase == P.Done
    && forall j: nat :: j < m ==> P.Parse(Head(o, j), D.BEGIN).phase != P.Done
  }

  /** The calls wait for the first time, and the text is an opener and its stanza. */
  ghost predicate FirstEnd(u: Display, text: bytes, o: Opening) {
    && Waits(u) && u.startTail == [] && !u.postThinkGap && Starts(u.sink) == 1
    && Opens(text, o) && First(o) && EndsAt(o, |o.behind|)
  }

  /** What stands in front of an unfinished stanza is unfinished. */
  lemma ShorterUnfinished(o: Opening, m: nat)
    requires m <= |o.behind| && P.Parse(Head(o, m), D.BEGIN).phase != P.Done
    ensures forall j: nat :: j <= m ==> P.Parse(Head(o, j), D.BEGIN).phase != P.Done
  {
    hide P.Parse, START, Lead;
    forall j: nat | j <= m ensures P.Parse(Head(o, j), D.BEGIN).phase != P.Done {
      DoneStays(o, j, m);
    }
  }

  lemma DoneStays(o: Opening, j: nat, m: nat)
    requires j <= m <= |o.behind|
    ensures P.Parse(Head(o, j), D.BEGIN).phase == P.Done ==> P.Parse(Head(o, m), D.BEGIN) == P.Parse(Head(o, j), D.BEGIN)
  {
    hide P.Parse, START, Lead;
    var a, b := Head(o, j), Head(o, m);
    assert o.behind[..m] == o.behind[..j] + o.behind[j..m];
    assert b == a + o.behind[j..m];
    assert a[..|a|] == a && b[..|a|] == a;
    if P.Parse(a, D.BEGIN).phase == P.Done { WholeDecides(a, |a|, b); }
  }

  /** The byte that ends the first stanza. */
  lemma StanzaByteEnds(s: Display, done: bytes, c: byte, o: Opening, n: nat)
    requires Consistent(s) && s.dsmlActive && Comes(s, done, o, n) && First(o) && Starts(s.sink) == 1
    requires !Caught(StreamByte(s, c)) && StreamByte(s, c).parser.core.phase == P.Done && Consistent(StreamByte(s, c))
    ensures FirstEnd(StreamByte(s, c), done + [c], o.(behind := o.behind + [c]))
  {
    hide FeedDsml, P.Parse, Starts, START, Unblank, StartMatch, THINK_CLOSE, HoldsOpener, Repeat, Caught, OPENERS;
    var t := StreamByte(s, c);
    FeedCounts(s, c);
    var m := CallByteComes(s, done, c, o, n);
    var q := o.(behind := o.behind + [c]);
    var l := |q.behind|;
    assert q.behind[..l] == q.behind && q.behind[..l - 1] == o.behind;
    WholeDecides(Stanza(q), m, Stanza(q));
    ShorterUnfinished(q, l - 1);
    assert First(q) && Waits(t) && Opens(done + [c], q);
    assert Head(q, l) == Stanza(q) && Head(q, l - 1) == Stanza(o);
    assert EndsAt(q, l);
  }

  /** A whole opener by itself finishes nothing. */
  lemma InvokeWaits()
    ensures P.Parse(START + INVOKE_OPENER, D.BEGIN).phase != P.Done
  {
    hide CloseTag, P.FindClose, P.OpenTag, START;
    var raw := START + INVOKE_OPENER;
    StartBytes();
    InvokeBytes();
    assert raw[|START|..] == INVOKE_OPENER && raw[|START|] == LT;
    P.StructuralStep(raw, D.BEGIN);
    assert SkipBlanks(raw, |START|) == |START|;
    NoCloseHere(INVOKE_OPENER, TOOL_CALLS);
    NoCloseHere(INVOKE_OPENER, INVOKE);
  }

  lemma InvokeBytes()
    ensures |INVOKE_OPENER| > 1 && INVOKE_OPENER[0] == LT && INVOKE_OPENER[1] == 0xEF && FindByte(INVOKE_OPENER, GT).None?
  {
  }

  lemma NoCloseHere(t: bytes, name: bytes)
    requires |t| > 1 && t[1] == 0xEF
    ensures CloseTag(t, name).None?
  {
    assert |CLOSE| > 1 && CLOSE[1] == SLASH && (CLOSE + name)[1] == CLOSE[1];
  }

  /** An opener by itself does not finish a stanza. */
  lemma BeginUnfinished(s: Display, implicitInvoke: bool)
    requires s.parser == D.INIT && !s.inThink
    ensures BeginCall(s, implicitInvoke).parser.core.phase != P.Done
  {
    hide START, INVOKE_OPENER, P.Parse, FeedDsmlBytes, Repeat;
    var u := StartDsml(s, false);
    if implicitInvoke {
      D.ParseNothing(START, D.BEGIN);
      assert [] + START == START && START + [] == START;
      assert Fed(u.parser, START, 0, 1);
      var m := FedBytes(u, START, 0, 1, INVOKE_OPENER);
      InvokeWaits();
      NotWhole(START + INVOKE_OPENER, m);
    }
  }

  lemma NotWhole(x: bytes, n: nat)
    requires |START| <= |x| && P.Parse(x, D.BEGIN).phase != P.Done
    ensures !ToolOrigin.Whole(x, n)
  {
    hide P.Parse, START;
    if ToolOrigin.Whole(x, n) { WholeDecides(x, n, x); }
  }

  /** Outside calls no stanza is finished. */
  lemma TextUnfinished(s: Display, c: byte)
    requires Consistent(s) && !s.dsmlActive && (s.parser == D.INIT || s.parser.core.phase == P.Failed)
    ensures var t := StreamByte(s, c); t.parser.core.phase != P.Done || Caught(t)
  {
    hide OpenerByte, NotePlain, NoteThinking, StartMatch, START;
    ThinkingNoted(s, c);
    var n := NoteThinking(s, c);
    OpenerUnfinished(n, c);
    FlushOne(n.(postThinkGap := false), c);
    FlushKeeps(n.(postThinkGap := false), [c]);
  }

  lemma OpenerUnfinished(s: Display, c: byte)
    requires Consistent(s) && !s.dsmlActive && (s.parser == D.INIT || s.parser.core.phase == P.Failed)
    ensures var t := OpenerByte(s, c); s.parser.core.phase == P.Failed || t.parser.core.phase != P.Done || Caught(t)
  {
    hide StartMatch, BeginCall, GiveUp, START;
    var tail := if |s.startTail| < START_TAIL then s.startTail + [c] else s.startTail;
    var t := s.(startTail := tail);
    match StartMatch(tail) {
      case Prefix =>
      case Whole(implicitInvoke) =>
        BeginCallKeeps(t, implicitInvoke);
        if s.parser == D.INIT && !s.inThink { BeginUnfinished(t, implicitInvoke); }
      case NoMatch =>
        GiveUpKeeps(t);
    }
  }

  /** How far a text has come before its first stanza is finished. */
  ghost predicate Before(s: Display, done: bytes) {
    Explained(s, done) && (Caught(s) || (Starts(s.sink) <= 1 && s.parser.core.phase != P.Done))
  }

  /** A text that has not finished its first stanza is inside it, or has started none. */
  lemma BeforeCases(s: Display, done: bytes)
    requires Before(s, done) && !Caught(s)
    ensures Consistent(s) && Starts(s.sink) <= 1 && s.parser.core.phase != P.Done
    ensures !s.dsmlActive ==> (s.parser == D.INIT || s.parser.core.phase == P.Failed) && Starts(s.sink) == 0
    ensures s.dsmlActive ==> exists o, n: nat :: Comes(s, done, o, n) && First(o) && Starts(s.sink) == 1
  {
    hide Starts, Tailed, First, NothingYet, Opens, Repeat, START, P.Parse, StartMatch;
    var w, o, n: nat :| Tailed(s, done, w) && Comes(s, done, o, n) && FromFirst(s, done, o);
  }

  /** One byte: the first stanza is finished by it, or still to come. */
  lemma BeforeByte(s: Display, done: bytes, c: byte) returns (o: Opening)
    requires Before(s, done) && (Caught(s) || NotTag(s, done, c))
    ensures var t := StreamByte(s, c);
      Before(t, done + [c]) || (s.dsmlActive && FirstEnd(t, done + [c], o))
  {
    hide Starts, Comes, First, Caught, Consistent, Tailed, FromFirst, FirstEnd, StreamByte, NotTag;
    o := Opening([], [], []);
    ByteExplained(s, done, c);
    ExplainedIsConsistent(s, done);
    ExplainedIsConsistent(StreamByte(s, c), done + [c]);
    StreamByteKeeps(s, c);
    ByteStarts(s, c);
    var t := StreamByte(s, c);
    if !Caught(s) && !Caught(t) {
      BeforeCases(s, done);
      if s.dsmlActive {
        var p, n: nat :| Comes(s, done, p, n) && First(p) && Starts(s.sink) == 1;
        ActiveStarts(s, c);
        if t.parser.core.phase == P.Done {
          o := p.(behind := p.behind + [c]);
          StanzaByteEnds(s, done, c, p, n);
        }
      } else {
        TextUnfinished(s, c);
      }
    }
  }

  lemma ExplainedIsConsistent(s: Display, done: bytes)
    requires Explained(s, done)
    ensures Consistent(s)
  {
    hide Consistent, Caught;
  }

  lemma ActiveStarts(s: Display, c: byte)
    requires s.dsmlActive
    ensures Starts(StreamByte(s, c).sink) == Starts(s.sink)
  {
    hide Starts, FeedDsml;
    FeedStarts(s, c);
  }

  lemma BeforeTag(s: Display, done: bytes, tag: bytes)
    requires Before(s, done) && !s.dsmlActive && (tag == THINK_OPEN || tag == THINK_CLOSE)
    ensures Before(if tag == THINK_OPEN then OpenThink(s) else CloseThink(s), done + tag)
  {
    hide Starts, Comes, First, Consistent, Tailed, FromFirst, THINK_OPEN, THINK_CLOSE, FlushStartTail, Explained;
    ExplainedIsConsistent(s, done);
    TagExplained(s, done, tag);
    TagsKeep(s);
    TagStarts(s);
    FlushTailKeeps(s);
  }

  /** What the display makes of a text: tools are ruled out, its first stanza is not finished, or it is, at one place. */
  ghost predicate Reaches(t: Display, s: Display, done: bytes, buf: bytes, u: Display, i: nat, o: Opening) {
    || Caught(t) || t.parser.core.phase != P.Done
    || (i <= |buf| && FirstEnd(u, done + buf[..i], o) && t == Drive(DISPLAY_MACHINE, u, buf[i..], false).0)
  }

  lemma ReachesLater(t: Display, s: Display, s': Display, done: bytes, head: bytes, buf: bytes, u: Display, i: nat, o: Opening)
    requires head <= buf && Reaches(t, s', done + head, buf[|head|..], u, i, o)
    ensures Reaches(t, s, done, buf, u, |head| + i, o)
  {
    hide DISPLAY_MACHINE, Drive, FirstEnd, Caught;
    var rest := buf[|head|..];
    if i <= |rest| {
      assert done + head + rest[..i] == done + buf[..|head| + i] by { assert buf[..|head| + i] == head + rest[..i]; }
      assert rest[i..] == buf[|head| + i..];
    }
  }

  lemma {:induction false} FirstDone(s: Display, done: bytes, buf: bytes) returns (u: Display, i: nat, o: Opening)
    requires Before(s, done) && Uncut(s, done, buf)
    ensures Reaches(Drive(DISPLAY_MACHINE, s, buf, false).0, s, done, buf, u, i, o)
    decreases |buf|
  {
    hide *;
    u, i, o := s, 0, Opening([], [], []);
    var t := Drive(DISPLAY_MACHINE, s, buf, false).0;
    TagLengths();
    DriveStep(s, buf, false);
    BeforeIsExplained(s, done);
    if buf == [] || (!s.dsmlActive && !(THINK_OPEN <= buf) && !(THINK_CLOSE <= buf) && HeldBack(buf)) {
      BeforeIsUndone(s, done);
      NotReached(t, s, done, buf, u, i, o);
    } else if !s.dsmlActive && THINK_OPEN <= buf {
      BeforeTag(s, done, THINK_OPEN);
      UncutTag(OpenThink(s), done, THINK_OPEN, buf[|THINK_OPEN|..]);
      u, i, o := FirstDone(OpenThink(s), done + THINK_OPEN, buf[|THINK_OPEN|..]);
      ReachesLater(t, s, OpenThink(s), done, THINK_OPEN, buf, u, i, o);
      i := |THINK_OPEN| + i;
    } else if !s.dsmlActive && THINK_CLOSE <= buf {
      BeforeTag(s, done, THINK_CLOSE);
      TagsDiffer();
      UncutTag(CloseThink(s), done, THINK_CLOSE, buf[|THINK_CLOSE|..]);
      u, i, o := FirstDone(CloseThink(s), done + THINK_CLOSE, buf[|THINK_CLOSE|..]);
      ReachesLater(t, s, CloseThink(s), done, THINK_CLOSE, buf, u, i, o);
      i := |THINK_CLOSE| + i;
    } else {
      var c := buf[0];
      UncutByte(s, done, buf);
      o := BeforeByte(s, done, c);
      var next := StreamByte(s, c);
      assert [c] <= buf && buf[..1] == [c];
      if Before(next, done + [c]) {
        u, i, o := FirstDone(next, done + [c], buf[1..]);
        ReachesLater(t, s, next, done, [c], buf, u, i, o);
        i := 1 + i;
      } else {
        u, i := next, 1;
        ReachedAt(t, s, done, buf, u, i, o);
      }
    }
  }

  lemma BeforeIsExplained(s: Display, done: bytes)
    requires Before(s, done)
    ensures Explained(s, done)
  {
    hide Explained;
  }

  lemma BeforeIsUndone(s: Display, done: bytes)
    requires Before(s, done)
    ensures Caught(s) || s.parser.core.phase != P.Done
  {
    hide Explained, Caught;
  }

  lemma NotReached(t: Display, s: Display, done: bytes, buf: bytes, u: Display, i: nat, o: Opening)
    requires Caught(t) || t.parser.core.phase != P.Done
    ensures Reaches(t, s, done, buf, u, i, o)
  {
    hide Caught, FirstEnd, Drive, DISPLAY_MACHINE;
  }

  lemma ReachedAt(t: Display, s: Display, done: bytes, buf: bytes, u: Display, i: nat, o: Opening)
    requires i <= |buf| && FirstEnd(u, done + buf[..i], o) && t == Drive(DISPLAY_MACHINE, u, buf[i..], false).0
    ensures Reaches(t, s, done, buf, u, i, o)
  {
    hide Caught, FirstEnd, Drive, DISPLAY_MACHINE;
  }

  // ---------------------------------------------------------------- once

  /** Where the first stanza ends, what is behind it decides how often calls are started. */
  lemma StartsBehind(t: Display, u: Display, text: bytes, i: nat, o: Opening)
    requires i <= |text| && FirstEnd(u, text[..i], o) && t == Drive(DISPLAY_MACHINE, u, text[i..], false).0
    ensures Starts(t.sink) > 0 && (Caught(t) || (Starts(t.sink) > 1 <==> HoldsOpener(text[i..])))
  {
    hide DISPLAY_MACHINE, Drive, Caught, Starts, Waits, HoldsOpener, Reopens, Opens, First, EndsAt;
    DriveScans(u, text[i..]);
    ReopensIs(text[i..]);
    DriveStarts(u, text[i..]);
  }

  /** The cut of the whole text at the opener of its first stanza. */
  lemma WholeCut(text: bytes, i: nat, u: Display, o: Opening)
    requires i <= |text| && FirstEnd(u, text[..i], o)
    ensures var q := o.(behind := o.behind + text[i..]);
      && Opens(text, q) && First(q) && EndsAt(q, |o.behind|) && q.behind[|o.behind|..] == text[i..]
      && P.Parse(Stanza(q), D.BEGIN) == P.Parse(Head(q, |o.behind|), D.BEGIN)
  {
    hide P.Parse, START, Lead, Waits, Starts, Unblank, OPENERS, HoldsOpener, THINK_CLOSE;
    var q := o.(behind := o.behind + text[i..]);
    var m := |o.behind|;
    assert text == text[..i] + text[i..];
    assert o.before + o.word + o.behind + text[i..] == q.before + q.word + q.behind;
    forall j: nat | j <= m ensures Head(q, j) == Head(o, j) {
      assert q.behind[..j] == o.behind[..j];
    }
    assert q.behind[..|q.behind|] == q.behind;
    DoneStays(q, m, |q.behind|);
  }

  lemma RoundReaches(thinking: bool, passes: seq<Pass>, max: nat) returns (u: Display, i: nat, o: Opening)
    ensures var l := Decode(Begin(thinking), passes, max); var text := Concat(l.transcript);
      || Caught(l.display) || l.display.parser.core.phase != P.Done
      || (i <= |text| && FirstEnd(u, text[..i], o) && l.display == Drive(DISPLAY_MACHINE, u, text[i..], false).0)
  {
    hide DISPLAY_MACHINE, Drive, StreamChunks, Decode, Reaches, Before, Uncut, Streamed, FirstEnd, Concat, Caught;
    var s := NEW.(inThink := thinking);
    var l := Decode(Begin(thinking), passes, max);
    RoundStreams(thinking, passes, max);
    StreamedIs(thinking, l);
    StreamChunksIsDriveChunks(s, [], l.transcript);
    ChunksAreOne(DISPLAY_MACHINE, s, [], l.transcript);
    var text := Concat(l.transcript);
    assert [] + text == text;
    NewIsExplained(thinking, text);
    NewIsBefore(thinking);
    u, i, o := FirstDone(s, [], text);
    if !Caught(l.display) && l.display.parser.core.phase == P.Done { ReachedText(l.display, s, text, u, i, o); }
  }

  lemma StreamedIs(thinking: bool, l: Loop)
    requires Streamed(thinking, l)
    ensures (l.display, l.held) == StreamChunks(NEW.(inThink := thinking), [], l.transcript)
  {
    hide StreamChunks;
  }

  lemma NewIsBefore(thinking: bool)
    ensures Before(NEW.(inThink := thinking), [])
  {
    NewIsExplained(thinking, []);
    assert Starts([]) == 0;
  }

  lemma RunsWait(thinking: bool, passes: seq<Pass>, max: nat, interrupted: bool)
    requires Round(thinking, passes, max, interrupted).RunTools?
    ensures Decode(Begin(thinking), passes, max).display.parser.core.phase == P.Done
  {
    hide Decode, StreamText, Round;
    ToolsRunExactly(thinking, passes, max, interrupted);
  }

  lemma ReachedText(t: Display, s: Display, text: bytes, u: Display, i: nat, o: Opening)
    requires Reaches(t, s, [], text, u, i, o) && !Caught(t) && t.parser.core.phase == P.Done
    ensures i <= |text| && FirstEnd(u, text[..i], o) && t == Drive(DISPLAY_MACHINE, u, text[i..], false).0
  {
    hide Caught, FirstEnd, Drive, DISPLAY_MACHINE;
    if i <= |text| { assert [] + text[..i] == text[..i]; }
  }

  lemma SameCalls(o: Opening, m: nat)
    requires m <= |o.behind|
    ensures |START| <= |Head(o, m)| && |START| <= |Stanza(o)|
    ensures P.Parse(Stanza(o), D.BEGIN) == P.Parse(Head(o, m), D.BEGIN) ==> CallsOf(Stanza(o)) == CallsOf(Head(o, m))
  {
    hide P.Parse, START, Lead;
  }

  lemma {:induction false} RepeatLength(calls: seq<P.Call>, k: nat)
    ensures |Repeat(calls, k)| == k * |calls|
  {
    if k > 0 { RepeatLength(calls, k - 1); }
  }

  lemma RepeatedOnce(calls: seq<P.Call>, k: nat)
    requires k > 0
    ensures Repeat(calls, k) == calls <==> calls == [] || k == 1
  {
    RepeatLength(calls, k);
    RepeatIs(calls, k);
    if k > 1 && calls != [] { assert k * |calls| > |calls|; }
    if calls == [] { assert k * |calls| == 0; }
  }

  /**
   * When tools run once, for every text: in the text of a round that runs tools the first
   * accepted opener, and the end of the stanza behind it, are at one place; the tools are
   * the calls of that stanza, and they run once if and only if no opener is accepted behind
   * its end, or there are none.
   */
  lemma RunOnceExactly(thinking: bool, passes: seq<Pass>, max: nat, interrupted: bool) returns (o: Opening, m: nat)
    requires Round(thinking, passes, max, interrupted).RunTools?
    ensures var text := Concat(Decode(Begin(thinking), passes, max).transcript);
      && Opens(text, o) && First(o) && EndsAt(o, m)
      && (Round(thinking, passes, max, interrupted) == RunTools(CallsOf(Head(o, m))) <==>
            CallsOf(Head(o, m)) == [] || !HoldsOpener(o.behind[m..]))
  {
    hide *;
    var l := Decode(Begin(thinking), passes, max);
    var text := Concat(l.transcript);
    var p := ToolsComeFromText(thinking, passes, max, interrupted);
    RunsWait(thinking, passes, max, interrupted);
    NotCaught(thinking, passes, max, interrupted);
    var u, i, q := RoundReaches(thinking, passes, max);
    StartsBehind(l.display, u, text, i, q);
    WholeCut(text, i, u, q);
    o, m := q.(behind := q.behind + text[i..]), |q.behind|;
    FirstIsUnique(text, o, p);
    SameCalls(o, m);
    SameCalls(p, 0);
    RepeatedOnce(CallsOf(Stanza(p)), Starts(l.display.sink));
  }
}
