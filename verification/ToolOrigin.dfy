// Where the tools that run come from (ds4_agent.c:1527-1560, 3349-3508, 7810-7974): the
// calls of a round are those of one parse of the text behind an accepted opener, as many
// times over as openers were accepted before the batch ended.

module ToolOrigin {
  import opened Bytes
  import opened DsmlTags
  import P = DsmlParse
  import D = DsmlStream
  import R = DsmlRoundTrip
  import opened TagSplitter
  import opened StreamDisplay
  import opened ToolRound
  import opened ToolText
  import opened Openers

  // ---------------------------------------------------------------- parsing again

  /** Two parses that differ in the calls pushed so far, and in arguments that no call will take. */
  ghost predicate Ahead(extra: seq<P.Call>, c: P.Core, d: P.Core) {
    && d.phase == c.phase && d.pos == c.pos && d.calls == extra + c.calls
    && d.draft.name == c.draft.name && (c.draft.name.Some? ==> d.draft == c.draft)
    && (c.phase == P.ParamValue ==> d.valueStart == c.valueStart && d.paramName == c.paramName && d.paramIsString == c.paramIsString)
  }

  lemma AheadPush(extra: seq<P.Call>, c: P.Core, d: P.Core)
    requires Ahead(extra, c, d)
    ensures Ahead(extra, P.Push(c), P.Push(d))
  {
  }

  lemma AheadOpen(extra: seq<P.Call>, c: P.Core, d: P.Core, tag: bytes)
    requires Ahead(extra, c, d)
    ensures Ahead(extra, P.OpenTag(c, tag), P.OpenTag(d, tag))
  {
    hide P.ParseAttr, P.OpenTagIs, P.UNEXPECTED, P.NO_INVOKE_NAME, P.NO_PARAM_NAME;
  }

  lemma AheadStep(extra: seq<P.Call>, raw: bytes, c: P.Core, d: P.Core)
    requires P.Valid(raw, c) && P.Valid(raw, d) && P.Active(c) && Ahead(extra, c, d)
    ensures var a, b := P.Step(raw, c), P.Step(raw, d); a.Go? == b.Go? && Ahead(extra, a.core, b.core)
  {
    hide CloseTag, P.FindClose, P.Push, P.OpenTag, FindByte, SkipBlanks;
    if c.phase == P.Structural {
      var p := SkipBlanks(raw, c.pos);
      var at, bt := c.(pos := p), d.(pos := p);
      AheadPush(extra, at, bt);
      var t := raw[p..];
      if t != [] && FindByte(t, GT).Some? { AheadOpen(extra, at, bt, t[..FindByte(t, GT).value + 1]); }
    }
  }

  lemma {:induction false} AheadParse(extra: seq<P.Call>, raw: bytes, c: P.Core, d: P.Core)
    requires P.Valid(raw, c) && P.Valid(raw, d) && Ahead(extra, c, d)
    ensures Ahead(extra, P.Parse(raw, c), P.Parse(raw, d))
    decreases |raw| - c.pos, P.Active(c)
  {
    hide P.Step;
    if P.Active(c) {
      AheadStep(extra, raw, c, d);
      match P.Step(raw, c)
      case Wait(_) =>
      case Go(e) => AheadParse(extra, raw, e, P.Step(raw, d).core);
    }
  }

  /** A finished parse leaves no named draft. */
  lemma {:induction false} DoneHasNoDraft(raw: bytes, c: P.Core)
    requires P.Valid(raw, c) && P.Active(c) && P.Parse(raw, c).phase == P.Done
    ensures P.Parse(raw, c).draft.name.None?
    decreases |raw| - c.pos, P.Active(c)
  {
    hide CloseTag, P.FindClose, P.ParseAttr, P.OpenTagIs, FindByte, SkipBlanks;
    match P.Step(raw, c)
    case Wait(_) =>
    case Go(e) => if P.Active(e) { DoneHasNoDraft(raw, e); }
  }

  // ---------------------------------------------------------------- what the parser was fed

  /** The first `n` bytes of a stanza text are a whole stanza. */
  ghost predicate Whole(x: bytes, n: nat) {
    |START| <= n <= |x| && P.Parse(x[..n], D.BEGIN).phase == P.Done
  }

  function CallsOf(x: bytes): seq<P.Call>
    requires |START| <= |x|
  {
    P.Parse(x, D.BEGIN).calls
  }

  /** Calls, `k` times over. */
  function Repeat(calls: seq<P.Call>, k: nat): seq<P.Call> {
    if k == 0 then [] else Repeat(calls, k - 1) + calls
  }

  /** The parser's core at the start of a stanza behind finished ones. */
  predicate AtStart(c: P.Core, calls: seq<P.Call>) {
    c.phase == P.Structural && c.pos == |START| && c.calls == calls && c.draft.name.None?
  }

  /**
   * The parser after `k` openers, when `x` is the canonical opener and all that follows
   * the first one: it parses `x`; or a beginning of `x` was a whole stanza, and its calls
   * have been read once for every opener but a last one that has not seen a byte yet.
   */
  ghost predicate Fed(p: D.State, x: bytes, n: nat, k: nat) {
    && D.Sound(p) && k > 0 && START <= x && p.core.phase != P.Search
    && (P.Active(p.core) && k == 1 ==> p.raw == x && p.core == P.Parse(x, D.BEGIN))
    && (P.Active(p.core) && k > 1 ==> Whole(x, n) && x[..n] <= p.raw && AtStart(p.core, Repeat(CallsOf(x[..n]), k - 1)))
    && (p.core.phase == P.Done ==>
          Whole(x, n) && x[..n] <= p.raw && p.core.calls == Repeat(CallsOf(x[..n]), k) && p.core.draft.name.None?)
  }

  lemma WholeGrows(x: bytes, n: nat, more: bytes)
    requires Whole(x, n)
    ensures Whole(x + more, n) && (x + more)[..n] == x[..n]
  {
    hide P.Parse;
    assert (x + more)[..n] == x[..n];
  }

  /** What follows a whole stanza does not change its parse. */
  lemma WholeDecides(x: bytes, n: nat, raw: bytes)
    requires Whole(x, n) && x[..n] <= raw
    ensures P.Parse(raw, D.BEGIN) == P.Parse(x[..n], D.BEGIN)
  {
    hide P.Parse, START;
    var more := raw[n..];
    assert raw == x[..n] + more;
    P.ParseResumes(x[..n], more, D.BEGIN);
    D.ParseFinal(raw, P.Parse(x[..n], D.BEGIN));
  }

  /** A parser that is not reading its first stanza does not care what comes later. */
  lemma FedGrows(p: D.State, x: bytes, n: nat, k: nat, more: bytes)
    requires Fed(p, x, n, k) && (k > 1 || !P.Active(p.core))
    ensures Fed(p, x + more, n, k)
  {
    hide P.Parse, START, Repeat;
    if Whole(x, n) { WholeGrows(x, n, more); }
  }

  lemma FeedOne(p: D.State, c: byte)
    requires D.Sound(p) && P.Active(p.core)
    ensures D.Feed(p, [c]) == D.FeedByte(p, c)
  {
    hide START, P.Parse, D.ClosePrefix;
    assert D.FeedBytes(p, [c]) == D.FeedByte(p, c) by { assert [c][1..] == []; }
  }

  lemma FedFirst(p: D.State, x: bytes, n: nat, c: byte) returns (m: nat)
    requires Fed(p, x, n, 1) && P.Active(p.core)
    ensures Fed(D.Feed(p, [c]), x + [c], m, 1)
  {
    hide P.Parse, START, D.ClosePrefix;
    FeedOne(p, c);
    var raw := x + [c];
    P.ParseResumes(x, [c], D.BEGIN);
    D.ParseStarted(raw, D.BEGIN);
    m := |raw|;
    assert raw[..m] == raw;
    if P.Parse(raw, D.BEGIN).phase == P.Done { DoneHasNoDraft(raw, D.BEGIN); }
    RepeatIs(P.Parse(raw, D.BEGIN).calls, 1);
  }

  lemma RepeatIs(calls: seq<P.Call>, k: nat)
    ensures Repeat(calls, 1) == calls && (k > 0 ==> Repeat(calls, k) == Repeat(calls, k - 1) + calls)
  {
    assert Repeat(calls, 1) == Repeat(calls, 0) + calls == [] + calls;
  }

  /** The first byte behind a later opener makes the parser read the first stanza again. */
  lemma FedAgain(p: D.State, x: bytes, n: nat, k: nat, c: byte)
    requires Fed(p, x, n, k) && k > 1 && P.Active(p.core)
    ensures Fed(D.Feed(p, [c]), x, n, k) && D.Feed(p, [c]).core.phase == P.Done
  {
    hide P.Parse, START, D.ClosePrefix, Repeat;
    FeedOne(p, c);
    var raw := p.raw + [c];
    assert x[..n] <= raw;
    WholeDecides(x, n, raw);
    DoneHasNoDraft(x[..n], D.BEGIN);
    var extra := Repeat(CallsOf(x[..n]), k - 1);
    assert extra + [] == extra;
    AheadParse(extra, raw, D.BEGIN, p.core);
    RepeatIs(CallsOf(x[..n]), k);
  }

  // ---------------------------------------------------------------- an accepted opener

  /** A cut of a text at an opener; only right behind the closing think tag may it hold blanks. */
  datatype Opening = Opening(before: bytes, word: bytes, behind: bytes)

  ghost predicate Opens(text: bytes, o: Opening) {
    && text == o.before + o.word + o.behind && Unblank(o.word) in OPENERS
    && (NoBlank(o.word) || EndsWith(o.before, THINK_CLOSE))
  }

  /** An opener that leaves out the outer tag stands for both. */
  function Lead(word: bytes): bytes {
    if Unblank(word) == INVOKE_OPENER || Unblank(word) == MISSING_BAR_INVOKE then INVOKE_OPENER else []
  }

  /** The stanza that a cut stands for, in its canonical spelling. */
  function Stanza(o: Opening): bytes {
    START + (Lead(o.word) + o.behind)
  }

  function Starts(sink: seq<Event>): nat {
    if sink == [] then 0 else Starts(sink[..|sink| - 1]) + (if sink[|sink| - 1] == ToolStarted then 1 else 0)
  }

  /** Held bytes are the end of the text; in the gap behind the closing think tag blanks are dropped from them. */
  ghost predicate Tailed(s: Display, done: bytes, w: bytes) {
    HeldIs(done, s.startTail, s.postThinkGap, w)
  }

  /** Where a state that may still run tools comes from. */
  ghost predicate Comes(s: Display, done: bytes, o: Opening, n: nat) {
    var k := Starts(s.sink);
    && !s.dsmlIgnored && (s.dsmlActive ==> s.startTail == [] && !s.postThinkGap)
    && (s.startTail == [] || StartMatch(s.startTail) == Prefix)
    && (k == 0 ==> s.parser == D.INIT)
    && (k > 0 ==> Opens(done, o) && Fed(s.parser, Stanza(o), n, k))
  }

  /** No opener is accepted before this one. */
  ghost predicate First(o: Opening) {
    o.word != [] && !HoldsOpener(o.before + o.word[..|o.word| - 1])
  }

  /** The first opener of the text is the one that started the first call. */
  ghost predicate FromFirst(s: Display, done: bytes, o: Opening) {
    if Starts(s.sink) == 0 then NothingYet(done, s.startTail, s.postThinkGap) else First(o)
  }

  ghost predicate Explained(s: Display, done: bytes) {
    Consistent(s) && (Caught(s) || exists w, o, n: nat :: Tailed(s, done, w) && Comes(s, done, o, n) && FromFirst(s, done, o))
  }

  // ---------------------------------------------------------------- bytes that feed no call

  lemma StartsAppend(sink: seq<Event>, e: Event)
    ensures Starts(sink + [e]) == Starts(sink) + (if e == ToolStarted then 1 else 0)
  {
    assert (sink + [e])[..|sink|] == sink;
  }

  lemma {:induction false} FlushCounts(s: Display, bs: bytes)
    ensures var t := FlushBytes(s, bs);
      Starts(t.sink) == Starts(s.sink) && t.dsmlIgnored == s.dsmlIgnored && t.postThinkGap == s.postThinkGap
    decreases |bs|
  {
    hide EndsInMarker, Starts;
    if bs != [] {
      var shown := Emit(s, Char(bs[0]));
      StartsAppend(s.sink, Char(bs[0]));
      StartsAppend(shown.sink, CallMalformed(STRAY_MARKUP));
      var t := NotePlain(shown, bs[0]);
      if t.parser.core.phase != P.Failed { FlushCounts(t, bs[1..]); }
    }
  }

  lemma FlushTailCounts(s: Display)
    ensures var t := FlushStartTail(s);
      && Starts(t.sink) == Starts(s.sink) && t.dsmlIgnored == s.dsmlIgnored && t.startTail == []
      && (s.startTail != [] ==> !t.postThinkGap)
  {
    hide FlushBytes, Starts;
    FlushCounts(s.(postThinkGap := false), s.startTail);
  }

  /** Text that feeds no call leaves the explanation as it was. */
  lemma ComesLater(s: Display, t: Display, done: bytes, more: bytes, o: Opening, n: nat)
    requires Comes(s, done, o, n) && t.parser == s.parser && t.dsmlIgnored == s.dsmlIgnored && Starts(t.sink) == Starts(s.sink)
    requires !P.Active(s.parser.core) && !t.dsmlActive && (t.startTail == [] || StartMatch(t.startTail) == Prefix)
    ensures Comes(t, done + more, o.(behind := o.behind + more), n)
  {
    hide Fed, Starts, Unblank, START, StartMatch, Stanza, THINK_CLOSE;
    if Starts(s.sink) > 0 {
      FedGrows(s.parser, Stanza(o), n, Starts(s.sink), more);
      StanzaGrows(o, more);
      Associative(o.before + o.word, o.behind, more);
    }
  }

  lemma StanzaGrows(o: Opening, more: bytes)
    ensures Stanza(o.(behind := o.behind + more)) == Stanza(o) + more
  {
    hide START, Lead;
    Associative(Lead(o.word), o.behind, more);
    Associative(START, Lead(o.word) + o.behind, more);
  }

  // ---------------------------------------------------------------- bytes of a call

  lemma SettleCounts(s: Display)
    requires !s.dsmlIgnored
    ensures var t := Settle(s);
      && Starts(t.sink) == Starts(s.sink) && t.startTail == s.startTail && !t.dsmlIgnored && t.parser == s.parser
      && t.postThinkGap == s.postThinkGap
  {
    hide Starts, IN_THINKING, MALFORMED_IN_THINKING, D.Sound, FinishIgnored, NEW;
    match s.parser.core.phase {
      case Done => StartsAppend(s.sink, ToolDone);
      case Failed => StartsAppend(s.sink, ToolFailed(s.parser.core.error));
      case _ =>
    }
  }

  lemma FeedCounts(s: Display, c: byte)
    requires !s.dsmlIgnored
    ensures var t := FeedDsml(s, c);
      && Starts(t.sink) == Starts(s.sink) && t.startTail == s.startTail && !t.dsmlIgnored && t.postThinkGap == s.postThinkGap
      && t.parser == D.Feed(s.parser, [c])
  {
    hide Starts, Settle, D.Feed;
    var t := s.(parser := D.Feed(s.parser, [c]));
    StartsAppend(t.sink, ToolByte(c));
    SettleCounts(Emit(t, ToolByte(c)));
  }

  /** A fed byte joins the first stanza, or makes the parser read it again. */
  lemma FedByte(p: D.State, x: bytes, n: nat, k: nat, c: byte) returns (m: nat)
    requires D.Sound(p) && Fed(p, x, n, k)
    ensures var q := D.Feed(p, [c]);
      q.core.phase == P.Failed || (Fed(q, x + [c], m, k) && (k > 1 ==> m == n && Fed(q, x, n, k)))
  {
    hide P.Parse, START, Repeat, Fed, D.FeedBytes;
    m := n;
    if P.Active(p.core) {
      if k > 1 {
        FedAgain(p, x, n, k, c);
        FedGrows(D.Feed(p, [c]), x, n, k, [c]);
      } else {
        FedHasOne(p, x, n, k);
        m := FedFirst(p, x, n, c);
      }
    } else {
      FedIsFinal(p, x, n, k);
      FedGrows(p, x, n, k, [c]);
    }
  }

  lemma FedHasOne(p: D.State, x: bytes, n: nat, k: nat)
    requires Fed(p, x, n, k)
    ensures k > 0
  {
    hide P.Parse, START, Repeat;
  }

  lemma FedIsFinal(p: D.State, x: bytes, n: nat, k: nat)
    requires Fed(p, x, n, k) && !P.Active(p.core)
    ensures D.Final(p.core.phase)
  {
    hide P.Parse, START, Repeat;
  }

  lemma {:induction false} FedBytes(s: Display, x: bytes, n: nat, k: nat, bs: bytes) returns (m: nat)
    requires !s.dsmlIgnored && Fed(s.parser, x, n, k)
    ensures var t := FeedDsmlBytes(s, bs);
      && Starts(t.sink) == Starts(s.sink) && t.startTail == s.startTail && !t.dsmlIgnored && t.postThinkGap == s.postThinkGap
      && (t.parser.core.phase == P.Failed || (Fed(t.parser, x + bs, m, k) && (k > 1 ==> m == n && Fed(t.parser, x, n, k))))
    decreases |bs|
  {
    hide FeedDsml, Fed, Starts, START;
    m := n;
    if bs == [] {
      assert x + bs == x;
    } else {
      FeedCounts(s, bs[0]);
      var t := FeedDsml(s, bs[0]);
      m := FedByte(s.parser, x, n, k, bs[0]);
      if t.parser.core.phase == P.Failed {
        FailedFeeds(t, bs[1..]);
      } else {
        assert x + bs == x + [bs[0]] + bs[1..];
        var q := FedBytes(t, x + [bs[0]], m, k, bs[1..]);
        if k > 1 { var r := FedBytes(t, x, n, k, bs[1..]); }
        m := q;
      }
    }
  }

  lemma {:induction false} FailedFeeds(s: Display, bs: bytes)
    requires !s.dsmlIgnored && s.parser.core.phase == P.Failed
    ensures var t := FeedDsmlBytes(s, bs);
      && Starts(t.sink) == Starts(s.sink) && t.startTail == s.startTail && !t.dsmlIgnored && t.parser.core.phase == P.Failed
      && t.postThinkGap == s.postThinkGap
    decreases |bs|
  {
    hide FeedDsml, Starts;
    if bs != [] {
      FeedCounts(s, bs[0]);
      FailedFeeds(FeedDsml(s, bs[0]), bs[1..]);
    }
  }

  lemma CallByteComes(s: Display, done: bytes, c: byte, o: Opening, n: nat) returns (m: nat)
    requires Consistent(s) && s.dsmlActive && Comes(s, done, o, n)
    ensures var t := FeedDsml(s, c);
      t.parser.core.phase == P.Failed || Comes(t, done + [c], o.(behind := o.behind + [c]), m)
  {
    hide FeedDsml, Fed, Starts, START, Unblank, StartMatch, Stanza, THINK_CLOSE;
    FeedCounts(s, c);
    m := FedByte(s.parser, Stanza(o), n, Starts(s.sink), c);
    StanzaGrows(o, [c]);
    Associative(o.before + o.word, o.behind, [c]);
  }

  lemma CallByteExplained(s: Display, done: bytes, c: byte)
    requires Explained(s, done) && !Caught(s) && s.dsmlActive
    ensures Explained(StreamByte(s, c), done + [c])
  {
    hide FeedDsml, Fed, Starts, START, Comes, StartMatch, Consistent, Caught, Tailed, NormalByte;
    var w, o, n: nat :| Tailed(s, done, w) && Comes(s, done, o, n) && FromFirst(s, done, o);
    var t := FeedDsml(s, c);
    StreamByteKeeps(s, c);
    TailIsEmpty(s, done, o, n);
    FeedCounts(s, c);
    var m := CallByteComes(s, done, c, o, n);
    if t.parser.core.phase == P.Failed {
      InactiveFailed(t);
    } else {
      NothingHeld(t, done + [c]);
      ActiveHasStarted(s, done, o, n);
      FirstStays(s, t, done, done + [c], o, [c]);
      assert Tailed(t, done + [c], []) && Comes(t, done + [c], o.(behind := o.behind + [c]), m);
    }
  }

  lemma NothingHeld(s: Display, done: bytes)
    requires s.startTail == [] && (s.postThinkGap ==> EndsWith(done, THINK_CLOSE))
    ensures Tailed(s, done, [])
  {
    hide THINK_CLOSE;
    assert done[..|done|] == done;
  }

  lemma InactiveFailed(s: Display)
    requires Consistent(s) && s.parser.core.phase == P.Failed
    ensures Caught(s)
  {
  }

  lemma ActiveHasStarted(s: Display, done: bytes, o: Opening, n: nat)
    requires Comes(s, done, o, n) && Consistent(s) && s.dsmlActive
    ensures Starts(s.sink) > 0
  {
    hide Fed, Starts, START, StartMatch, Opens;
  }

  /** A state with as many calls started keeps its first opener. */
  lemma FirstStays(s: Display, t: Display, done: bytes, later: bytes, o: Opening, more: bytes)
    requires FromFirst(s, done, o) && Starts(t.sink) == Starts(s.sink)
    requires Starts(s.sink) == 0 ==> NothingYet(later, t.startTail, t.postThinkGap)
    ensures FromFirst(t, later, o.(behind := o.behind + more))
  {
    hide Starts, NothingYet, HoldsOpener;
  }

  /** A byte outside calls that opens nothing. */
  lemma NothingGoesOn(s: Display, t: Display, done: bytes, c: byte)
    requires NothingYet(done, s.startTail, s.postThinkGap) && NotTag(s, done, c)
    requires NextHeld(s.startTail, s.postThinkGap, c, t.startTail, t.postThinkGap) && Starts(s.sink) == 0
    ensures NothingYet(done + [c], t.startTail, t.postThinkGap)
  {
    hide NothingYet, NextHeld, EndsWith, THINK_CLOSE, Starts;
    NothingStep(done, s.startTail, s.postThinkGap, c, t.startTail, t.postThinkGap);
  }

  /** The byte does not complete a think tag. */
  ghost predicate NotTag(s: Display, done: bytes, c: byte) {
    Starts(s.sink) == 0 ==> !EndsWith(done + [c], THINK_CLOSE)
  }

  lemma TailIsEmpty(s: Display, done: bytes, o: Opening, n: nat)
    requires Comes(s, done, o, n) && s.dsmlActive
    ensures s.startTail == [] && !s.dsmlIgnored && !s.postThinkGap
  {
    hide Fed, Starts, START, StartMatch, Opens;
  }

  // ---------------------------------------------------------------- an opener starts a call

  /** The parser behind a new opener. */
  lemma StartFeeds(s: Display, done: bytes, word: bytes, o: Opening, n: nat) returns (o': Opening)
    requires Consistent(s) && !s.dsmlActive && !s.inThink && s.parser.core.phase != P.Failed && Comes(s, done, o, n)
    requires Ends(done, word) && Unblank(word) in OPENERS
    requires NoBlank(word) || EndsWith(done[..|done| - |word|], THINK_CLOSE)
    ensures var t := StartDsml(s, false); var k := Starts(s.sink);
      && Starts(t.sink) == k + 1 && t.startTail == [] && !t.dsmlIgnored && !t.postThinkGap && Opens(done, o')
      && (k == 0 ==> o' == Opening(done[..|done| - |word|], word, []) && Fed(t.parser, START, n, 1))
      && (k > 0 ==> o' == o && Fed(t.parser, Stanza(o), n, k + 1))
  {
    hide Starts, START, Unblank, P.Parse, Repeat, OPENERS, StartMatch, THINK_CLOSE, Lead;
    var t := StartDsml(s, false);
    StartsAppend(s.sink, ToolStarted);
    var k := Starts(s.sink);
    if k == 0 {
      o' := Opening(done[..|done| - |word|], word, []);
      assert done == o'.before + o'.word + [];
      D.ParseNothing(START, D.BEGIN);
      assert [] + START == START;
      assert Fed(t.parser, START, n, 1);
    } else {
      o' := o;
      assert s.parser.core.phase == P.Done;
      assert Stanza(o)[..n] <= s.parser.raw + START;
    }
  }

  lemma BeginComes(s: Display, done: bytes, word: bytes, implicitInvoke: bool, o: Opening, n: nat) returns (o': Opening, m: nat)
    requires Consistent(s) && !s.dsmlActive && !s.inThink && s.parser.core.phase != P.Failed && Comes(s, done, o, n)
    requires Ends(done, word) && Unblank(word) in OPENERS
    requires NoBlank(word) || EndsWith(done[..|done| - |word|], THINK_CLOSE)
    requires implicitInvoke <==> Lead(word) == INVOKE_OPENER
    ensures var t := BeginCall(s, implicitInvoke);
      && t.startTail == [] && !t.postThinkGap && (t.parser.core.phase == P.Failed || Comes(t, done, o', m))
      && o' == (if Starts(s.sink) == 0 then Opening(done[..|done| - |word|], word, []) else o) && Starts(t.sink) > 0
  {
    hide Starts, START, INVOKE_OPENER, Unblank, Fed, StartDsml, FeedDsmlBytes, OPENERS, StartMatch, Opens, THINK_CLOSE;
    o' := StartFeeds(s, done, word, o, n);
    m := n;
    var u := StartDsml(s, false);
    var k := Starts(s.sink);
    if k == 0 {
      assert Lead(word) + [] == Lead(word);
      if implicitInvoke {
        m := FedBytes(u, START, n, 1, INVOKE_OPENER);
      } else {
        assert START + [] == START;
      }
    } else if implicitInvoke {
      m := FedBytes(u, Stanza(o), n, k + 1, INVOKE_OPENER);
    }
  }

  // ---------------------------------------------------------------- bytes outside calls

  lemma LeadIs(word: bytes)
    requires Unblank(word) in OPENERS
    ensures StartMatch(Unblank(word)).Whole?
    ensures StartMatch(Unblank(word)).implicitInvoke <==> Lead(word) == INVOKE_OPENER
  {
    hide START, MISSING_BAR_START, INVOKE_OPENER, MISSING_BAR_INVOKE, Unblank;
    OpenerLengths();
    OpenersDiffer();
  }

  lemma TailGrows(s: Display, done: bytes, w: bytes, c: byte)
    requires Tailed(s, done, w)
    ensures var v := w + [c];
      && Ends(done + [c], v) && Unblank(v) == s.startTail + Unblank([c])
      && (done + [c])[..|done + [c]| - |v|] == done[..|done| - |w|]
      && (!s.postThinkGap && !IsBlank(c) ==> NoBlank(v))
      && (s.postThinkGap ==> EndsWith((done + [c])[..|done + [c]| - |v|], THINK_CLOSE))
  {
    hide Unblank, THINK_CLOSE;
    assert (done + [c])[..|done| - |w|] == done[..|done| - |w|];
    UnblankConcat(w, [c]);
  }

  /** The word of a whole opener. */
  lemma WordEnds(s: Display, done: bytes, w: bytes, c: byte)
    requires Tailed(s, done, w) && StartMatch(s.startTail + [c]).Whole?
    ensures var v := w + [c]; var t := done + [c];
      && Ends(t, v) && Unblank(v) == s.startTail + [c] && s.startTail + [c] in OPENERS
      && (NoBlank(v) || EndsWith(t[..|t| - |v|], THINK_CLOSE))
  {
    hide START, MISSING_BAR_START, INVOKE_OPENER, MISSING_BAR_INVOKE, StartMatch, Unblank, OPENERS, THINK_CLOSE;
    var tail := s.startTail + [c];
    MatchShape(tail);
    TailGrows(s, done, w, c);
    UnblankByte(c);
    assert tail[|tail| - 1] == c;
  }

  lemma WholeExplained(s: Display, done: bytes, c: byte, w: bytes, o: Opening, n: nat)
    requires Consistent(s) && !s.dsmlActive && s.parser.core.phase != P.Failed && Tailed(s, done, w) && Comes(s, done, o, n)
    requires StartMatch(s.startTail + [c]).Whole? && FromFirst(s, done, o)
    ensures Explained(BeginCall(s.(startTail := s.startTail + [c]), StartMatch(s.startTail + [c]).implicitInvoke), done + [c])
  {
    hide START, MISSING_BAR_START, INVOKE_OPENER, MISSING_BAR_INVOKE, StartMatch, FeedDsmlBytes, Comes, Unblank, Starts, Lead, OPENERS, Consistent,
         FromFirst, Ends, EndsWith, THINK_CLOSE, NoBlank;
    WordEnds(s, done, w, c);
    var tail := s.startTail + [c];
    var implicitInvoke := StartMatch(tail).implicitInvoke;
    var v := w + [c];
    var plain := s.(startTail := []);
    var r := BeginCall(plain, implicitInvoke);
    assert r == BeginCall(s.(startTail := tail), implicitInvoke);
    assert Consistent(plain) by { SameParser(s, plain); }
    BeginCallKeeps(plain, implicitInvoke);
    if !s.inThink {
      InactiveParser(s);
      ComesLater(s, plain, done, [c], o, n) by { hide Fed; }
      LeadIs(v);
      var o', m := BeginComes(plain, done + [c], v, implicitInvoke, o.(behind := o.behind + [c]), n);
      if r.parser.core.phase == P.Failed {
        InactiveFailed(r);
      } else {
        NothingHeld(r, done + [c]);
        FirstOpens(s, r, done, c, v, o, o');
      }
    }
  }

  lemma FirstOpens(s: Display, r: Display, done: bytes, c: byte, v: bytes, o: Opening, o': Opening)
    requires FromFirst(s, done, o) && Ends(done + [c], v) && v != [] && Starts(r.sink) > 0
    requires o' == if Starts(s.sink) == 0 then Opening((done + [c])[..|done + [c]| - |v|], v, []) else o.(behind := o.behind + [c])
    ensures FromFirst(r, done + [c], o')
  {
    hide Starts, NothingYet;
    if Starts(s.sink) == 0 {
      NothingHolds(done, s.startTail, s.postThinkGap);
      assert o'.before + o'.word == done + [c];
      assert o'.before + o'.word[..|v| - 1] == done;
    }
  }

  lemma SameParser(s: Display, t: Display)
    requires t.parser == s.parser && t.dsmlActive == s.dsmlActive
    ensures Consistent(s) == Consistent(t)
  {
  }

  lemma GiveUpCounts(s: Display)
    requires s.startTail != []
    ensures var r := GiveUp(s);
      && Starts(r.sink) == Starts(s.sink) && r.dsmlIgnored == s.dsmlIgnored && !r.postThinkGap
      && (r.startTail == [] || (r.startTail == [LT] && s.startTail != [] && s.startTail[|s.startTail| - 1] == LT))
  {
    hide FlushBytes, FlushStartTail, Starts;
    FlushTailCounts(s);
    if |s.startTail| > 1 { FlushCounts(s.(postThinkGap := false), s.startTail[..|s.startTail| - 1]); }
  }

  lemma GiveUpExplained(s: Display, done: bytes, c: byte, o: Opening, n: nat)
    requires FromFirst(s, done, o) && StartMatch(s.startTail + [c]) == NoMatch && !Dropped(s, c) && NotTag(s, done, c)
    requires Consistent(s) && !s.dsmlActive && s.parser.core.phase != P.Failed && Comes(s, done, o, n)
    ensures Explained(GiveUp(s.(startTail := s.startTail + [c])), done + [c])
  {
    hide START, GiveUp, StartMatch, Comes, Unblank, Starts, Consistent, Tailed;
    var t := s.(startTail := s.startTail + [c]);
    assert t.startTail[|t.startTail| - 1] == c;
    SameParser(s, t);
    GiveUpKeeps(t);
    GiveUpCounts(t);
    var r := GiveUp(t);
    if r.parser.core.phase == P.Failed {
      InactiveFailed(r);
    } else {
      InactiveParser(s);
      MatchShape([LT]);
      GivenUp(t, c);
      if Starts(s.sink) == 0 { NothingGoesOn(s, r, done, c); }
      FirstStays(s, r, done, done + [c], o, [c]);
      if r.startTail == [] {
        ComesLater(s, r, done, [c], o, n);
        NothingHeld(r, done + [c]);
      } else {
        ComesLater(s, r, done, [c], o, n);
        OneHeld(r, done);
      }
    }
  }

  lemma GivenUp(s: Display, c: byte)
    requires s.startTail != [] && s.startTail[|s.startTail| - 1] == c && StartMatch(s.startTail) == NoMatch && s.parser.core.phase != P.Failed
    ensures var r := GiveUp(s); r.parser.core.phase == P.Failed || r.startTail == if c == LT then [LT] else []
  {
    hide FlushBytes, StartMatch;
    MatchShape([LT]);
    assert |s.startTail| == 1 ==> s.startTail == [c];
  }

  lemma OneHeld(s: Display, done: bytes)
    requires s.startTail == [LT] && !s.postThinkGap
    ensures Tailed(s, done + [LT], [LT])
  {
    UnblankByte(LT);
    assert (done + [LT])[|done|..] == [LT];
  }

  /** One byte more for a possible opener. */
  lemma OpenerExplained(s: Display, done: bytes, c: byte, w: bytes, o: Opening, n: nat)
    requires Consistent(s) && !s.dsmlActive && s.parser.core.phase != P.Failed && Tailed(s, done, w) && Comes(s, done, o, n)
    requires FromFirst(s, done, o) && !Dropped(s, c) && NotTag(s, done, c)
    ensures Explained(OpenerByte(s, c), done + [c])
  {
    hide START, MISSING_BAR_START, INVOKE_OPENER, MISSING_BAR_INVOKE, StartMatch, BeginCall, GiveUp, Tailed, Comes, Unblank, Starts, Consistent, Caught;
    OpenerByteKeeps(s, c);
    HeldIsBounded(s, done, o, n);
    TailGrows(s, done, w, c);
    UnblankByte(c);
    var tail := s.startTail + [c];
    MatchShape(tail);
    var t := s.(startTail := tail);
    var r := OpenerByte(s, c);
    match StartMatch(tail) {
      case Prefix =>
        assert Tailed(r, done + [c], w + [c]) by { PrefixIsTailed(r, done + [c], w + [c], c, s.startTail); }
        ComesLater(s, r, done, [c], o, n) by { InactiveParser(s); }
        if Starts(s.sink) == 0 { NothingGoesOn(s, r, done, c); }
        FirstStays(s, r, done, done + [c], o, [c]);
      case Whole(implicitInvoke) =>
        WholeExplained(s, done, c, w, o, n);
      case NoMatch =>
        GiveUpExplained(s, done, c, o, n);
    }
  }

  lemma HeldIsBounded(s: Display, done: bytes, o: Opening, n: nat)
    requires Comes(s, done, o, n)
    ensures |s.startTail| <= 22
  {
    hide Fed, Starts, START, StartMatch;
    MatchShape(s.startTail);
  }

  lemma InactiveParser(s: Display)
    requires Consistent(s) && !s.dsmlActive
    ensures !P.Active(s.parser.core)
  {
  }

  lemma PrefixIsTailed(r: Display, done: bytes, v: bytes, c: byte, held: bytes)
    requires Ends(done, v) && Unblank(v) == held + Unblank([c]) && r.startTail == held + [c] && NoBlank(held + [c])
    requires if r.postThinkGap then EndsWith(done[..|done| - |v|], THINK_CLOSE) else !IsBlank(c) ==> NoBlank(v)
    ensures Tailed(r, done, v)
  {
    hide Unblank, THINK_CLOSE;
    UnblankByte(c);
    assert (held + [c])[|held|] == c;
  }

  lemma ByteExplained(s: Display, done: bytes, c: byte)
    requires Explained(s, done) && (Caught(s) || NotTag(s, done, c))
    ensures Explained(StreamByte(s, c), done + [c])
  {
    hide Comes, Tailed, Caught, Consistent, OpenerByte, NotePlain, FeedDsml;
    StreamByteKeeps(s, c);
    if !Caught(s) {
      if s.dsmlActive {
        CallByteExplained(s, done, c);
      } else {
        TextByteExplained(s, done, c);
      }
    }
  }

  lemma ThinkingNoted(s: Display, c: byte)
    ensures var t := NoteThinking(s, c); t == s.(thinkTail := t.thinkTail, dsmlInThink := t.dsmlInThink)
  {
    hide EndsInMarker;
  }

  lemma TextByteExplained(s: Display, done: bytes, c: byte)
    requires Explained(s, done) && !Caught(s) && !s.dsmlActive && NotTag(s, done, c)
    ensures Explained(StreamByte(s, c), done + [c])
  {
    hide Comes, Tailed, Consistent, OpenerByte, NotePlain, FeedDsml, NoteThinking, Starts;
    StreamByteKeeps(s, c);
    var w, o, n: nat :| Tailed(s, done, w) && Comes(s, done, o, n) && FromFirst(s, done, o);
    ThinkingNoted(s, c);
    var t := NoteThinking(s, c);
    SameParser(s, t);
    InactiveParser(s);
    assert Tailed(t, done, w) && Comes(t, done, o, n) by { NotedComes(s, t, done, w, o, n); }
    var r := StreamByte(s, c);
    if s.parser.core.phase == P.Failed {
      InactiveFailed(s);
    } else if t.postThinkGap && IsBlank(c) {
      GapExplained(t, done, c, w, o, n);
    } else if t.startTail != [] || c == LT {
      OpenerExplained(t, done, c, w, o, n);
    } else {
      ShownExplained(t, done, c, o, n);
    }
  }

  /** A blank in the gap is dropped. */
  lemma GapExplained(s: Display, done: bytes, c: byte, w: bytes, o: Opening, n: nat)
    requires Consistent(s) && !s.dsmlActive && Tailed(s, done, w) && Comes(s, done, o, n) && FromFirst(s, done, o)
    requires s.postThinkGap && IsBlank(c) && NotTag(s, done, c)
    ensures Explained(s, done + [c])
  {
    hide Comes, Tailed, Consistent, Starts, NothingYet, First;
    InactiveParser(s);
    HeldIsPrefix(s, done, o, n);
    ComesLater(s, s, done, [c], o, n);
    TailGrows(s, done, w, c);
    UnblankByte(c);
    assert s.startTail + [] == s.startTail;
    if Starts(s.sink) == 0 { NothingGoesOn(s, s, done, c); }
    FirstStays(s, s, done, done + [c], o, [c]);
    GapIsTailed(s, done + [c], w + [c], s.startTail);
  }

  lemma NotedComes(s: Display, t: Display, done: bytes, w: bytes, o: Opening, n: nat)
    requires t == s.(thinkTail := t.thinkTail, dsmlInThink := t.dsmlInThink) && Tailed(s, done, w) && Comes(s, done, o, n)
    ensures Tailed(t, done, w) && Comes(t, done, o, n)
  {
  }

  lemma HeldIsPrefix(s: Display, done: bytes, o: Opening, n: nat)
    requires Comes(s, done, o, n)
    ensures s.startTail == [] || StartMatch(s.startTail) == Prefix
  {
  }

  lemma GapIsTailed(r: Display, done: bytes, v: bytes, held: bytes)
    requires Ends(done, v) && Unblank(v) == held && r.startTail == held
    requires r.postThinkGap && EndsWith(done[..|done| - |v|], THINK_CLOSE)
    ensures Tailed(r, done, v)
  {
  }

  /** A byte that is shown at once. */
  lemma ShownExplained(s: Display, done: bytes, c: byte, o: Opening, n: nat)
    requires Consistent(s) && !s.dsmlActive && s.parser.core.phase != P.Failed && Comes(s, done, o, n) && s.startTail == []
    requires c != LT && FromFirst(s, done, o) && !Dropped(s, c) && NotTag(s, done, c)
    ensures Explained(NotePlain(Emit(s.(postThinkGap := false), Char(c)), c), done + [c])
  {
    hide Comes, Tailed, Consistent, Starts, EndsInMarker, NotePlain;
    var t := s.(postThinkGap := false);
    var r := NotePlain(Emit(t, Char(c)), c);
    assert FlushBytes(t, [c]) == r by { FlushOne(t, c); }
    FlushCounts(t, [c]);
    FlushKeeps(t, [c]);
    NotePlainTail(Emit(t, Char(c)), c);
    SameParser(s, t);
    InactiveParser(s);
    if r.parser.core.phase == P.Failed {
      FailedIsConsistent(r);
    } else {
      SameParser(s, r);
      ComesLater(s, r, done, [c], o, n);
      OtherByte(c);
      assert [] + [c] == [c];
      if Starts(s.sink) == 0 { NothingGoesOn(s, r, done, c); }
      FirstStays(s, r, done, done + [c], o, [c]);
      NothingHeld(r, done + [c]);
    }
  }

  lemma FlushOne(s: Display, c: byte)
    ensures FlushBytes(s, [c]) == NotePlain(Emit(s, Char(c)), c)
  {
    hide NotePlain;
    assert [c][1..] == [];
  }

  lemma NotePlainTail(s: Display, c: byte)
    ensures NotePlain(s, c).startTail == s.startTail
  {
    hide EndsInMarker;
  }

  lemma FailedIsConsistent(s: Display)
    requires !s.dsmlActive && s.parser.core.phase == P.Failed
    ensures Consistent(s) && Caught(s)
  {
  }

  /** A think tag feeds no call and leaves nothing held. */
  lemma TagExplained(s: Display, done: bytes, tag: bytes)
    requires Explained(s, done) && !s.dsmlActive && (tag == THINK_OPEN || tag == THINK_CLOSE)
    ensures Explained(if tag == THINK_OPEN then OpenThink(s) else CloseThink(s), done + tag)
  {
    hide Comes, Tailed, Consistent, Caught, Starts, FlushStartTail, THINK_CLOSE;
    TagsDiffer();
    TagsKeep(s);
    FlushTailKeeps(s);
    FlushTailCounts(s);
    var f := FlushStartTail(s);
    StartsAppend(f.sink, ThinkOpened);
    StartsAppend(f.sink, ThinkClosed);
    if !Caught(s) {
      var w, o, n: nat :| Tailed(s, done, w) && Comes(s, done, o, n) && FromFirst(s, done, o);
      InactiveParser(s);
      FlushedExplained(s, if tag == THINK_OPEN then OpenThink(s) else CloseThink(s), done, tag, o, n);
    }
  }

  lemma FlushedExplained(s: Display, t: Display, done: bytes, more: bytes, o: Opening, n: nat)
    requires Comes(s, done, o, n) && !P.Active(s.parser.core) && Consistent(t) && !t.dsmlActive && t.startTail == []
    requires t.dsmlIgnored == s.dsmlIgnored && Starts(t.sink) == Starts(s.sink)
    requires t.parser == s.parser || t.parser.core.phase == P.Failed
    requires t.postThinkGap == (more == THINK_CLOSE)
    requires FromFirst(s, done, o) && (more == THINK_OPEN || more == THINK_CLOSE)
    ensures Explained(t, done + more)
  {
    hide Comes, Tailed, Consistent, Caught, Starts;
    if t.parser.core.phase == P.Failed {
      FailedIsConsistent(t);
    } else {
      TagEnds(done, more);
      ComesLater(s, t, done, more, o, n);
      HeldIsPrefix(s, done, o, n);
      if Starts(s.sink) == 0 { NothingTag(done, s.startTail, s.postThinkGap, more); }
      FirstStays(s, t, done, done + more, o, more);
      NothingHeld(t, done + more);
    }
  }

  // ---------------------------------------------------------------- calls that are started

  lemma SettleStarts(s: Display)
    ensures Starts(Settle(s).sink) == Starts(s.sink)
  {
    hide Starts, IN_THINKING, MALFORMED_IN_THINKING, D.Sound;
    StartsAppend(s.sink, ToolDone);
    StartsAppend(s.sink, ToolFailed(s.parser.core.error));
    StartsAppend(s.sink, CallIgnored(IN_THINKING));
    StartsAppend(s.sink, CallIgnored(MALFORMED_IN_THINKING));
  }

  lemma FeedStarts(s: Display, c: byte)
    ensures Starts(FeedDsml(s, c).sink) == Starts(s.sink)
  {
    hide Starts, Settle, D.Feed;
    var t := s.(parser := D.Feed(s.parser, [c]));
    StartsAppend(t.sink, ToolByte(c));
    SettleStarts(if s.dsmlIgnored then t else Emit(t, ToolByte(c)));
  }

  lemma {:induction false} FeedAllStarts(s: Display, bs: bytes)
    ensures Starts(FeedDsmlBytes(s, bs).sink) == Starts(s.sink)
    decreases |bs|
  {
    hide FeedDsml, Starts;
    if bs != [] {
      FeedStarts(s, bs[0]);
      FeedAllStarts(FeedDsml(s, bs[0]), bs[1..]);
    }
  }

  lemma BeginStarts(s: Display, implicitInvoke: bool)
    ensures Starts(BeginCall(s, implicitInvoke).sink) == Starts(s.sink) + if s.inThink then 0 else 1
  {
    hide FeedDsmlBytes, Starts, INVOKE_OPENER, START;
    StartsAppend(s.sink, ToolStarted);
    FeedAllStarts(StartDsml(s, s.inThink), INVOKE_OPENER);
  }

  lemma OpenerByteStarts(s: Display, c: byte)
    ensures Starts(s.sink) <= Starts(OpenerByte(s, c).sink) <= Starts(s.sink) + 1
  {
    hide StartMatch, BeginCall, GiveUp, Starts;
    var tail := if |s.startTail| < START_TAIL then s.startTail + [c] else s.startTail;
    var t := s.(startTail := tail);
    BeginStarts(t, true);
    BeginStarts(t, false);
    GiveUpCounts(t);
  }

  lemma ByteStarts(s: Display, c: byte)
    ensures Starts(s.sink) <= Starts(StreamByte(s, c).sink) <= Starts(s.sink) + 1
  {
    hide FeedDsml, OpenerByte, NotePlain, NoteThinking, Starts;
    FeedStarts(s, c);
    ThinkingNoted(s, c);
    var n := NoteThinking(s, c);
    OpenerByteStarts(n, c);
    FlushOne(n.(postThinkGap := false), c);
    FlushCounts(n.(postThinkGap := false), [c]);
  }

  lemma TagStarts(s: Display)
    ensures Starts(OpenThink(s).sink) == Starts(s.sink) && Starts(CloseThink(s).sink) == Starts(s.sink)
  {
    hide FlushStartTail, Starts;
    FlushTailCounts(s);
    var f := FlushStartTail(s);
    StartsAppend(f.sink, ThinkOpened);
    StartsAppend(f.sink, ThinkClosed);
  }

  // ---------------------------------------------------------------- the whole text

  /** No think tag is cut between what has been read and what is to come, as long as that matters. */
  ghost predicate Uncut(s: Display, done: bytes, buf: bytes) {
    Caught(s) || Starts(s.sink) > 0 || NoSplit(done, buf)
  }

  lemma UncutByte(s: Display, done: bytes, buf: bytes)
    requires Explained(s, done) && Uncut(s, done, buf) && buf != []
    requires s.dsmlActive || (!(THINK_OPEN <= buf) && !(THINK_CLOSE <= buf))
    ensures Caught(s) || NotTag(s, done, buf[0])
    ensures Uncut(StreamByte(s, buf[0]), done + [buf[0]], buf[1..])
  {
    hide THINK_OPEN, THINK_CLOSE, StreamByte, Caught, Starts, NoSplit, Comes, Tailed, FromFirst, EndsWith, Consistent;
    StreamByteKeeps(s, buf[0]);
    ByteStarts(s, buf[0]);
    if !Caught(s) && Starts(s.sink) == 0 {
      var w, o, n: nat :| Tailed(s, done, w) && Comes(s, done, o, n) && FromFirst(s, done, o);
      if s.dsmlActive { ActiveHasStarted(s, done, o, n); }
      NoSplitByte(done, buf);
    }
  }

  lemma UncutTag(s: Display, done: bytes, tag: bytes, rest: bytes)
    requires tag == THINK_OPEN || tag == THINK_CLOSE
    ensures Uncut(s, done + tag, rest)
  {
    hide THINK_OPEN, THINK_CLOSE, NoSplit, Caught, Starts;
    NoSplitTag(done, tag, rest);
  }

  /** Every state of the display is explained by the text behind it. */
  lemma {:induction false} DriveExplained(s: Display, done: bytes, buf: bytes)
    requires Explained(s, done) && Uncut(s, done, buf)
    ensures var (t, held) := Drive(DISPLAY_MACHINE, s, buf, false);
      |held| <= |buf| && buf[|buf| - |held|..] == held && Explained(t, done + buf[..|buf| - |held|])
    decreases |buf|
  {
    hide *;
    TagLengths();
    DriveStep(s, buf, false);
    if buf == [] {
      assert done + [] == done;
    } else if !s.dsmlActive && THINK_OPEN <= buf {
      TagExplained(s, done, THINK_OPEN);
      UncutTag(OpenThink(s), done, THINK_OPEN, buf[|THINK_OPEN|..]);
      DriveOn(OpenThink(s), done, THINK_OPEN, buf);
    } else if !s.dsmlActive && THINK_CLOSE <= buf {
      TagExplained(s, done, THINK_CLOSE);
      TagsDiffer();
      UncutTag(CloseThink(s), done, THINK_CLOSE, buf[|THINK_CLOSE|..]);
      DriveOn(CloseThink(s), done, THINK_CLOSE, buf);
    } else if !s.dsmlActive && HeldBack(buf) {
      assert buf[|buf| - |buf|..] == buf && done + buf[..0] == done;
    } else {
      UncutByte(s, done, buf);
      ByteExplained(s, done, buf[0]);
      assert [buf[0]] <= buf;
      DriveOn(StreamByte(s, buf[0]), done, [buf[0]], buf);
    }
  }

  lemma {:induction false} DriveOn(s: Display, done: bytes, head: bytes, buf: bytes)
    requires head != [] && head <= buf && Explained(s, done + head) && Uncut(s, done + head, buf[|head|..])
    ensures var rest := buf[|head|..]; var (t, held) := Drive(DISPLAY_MACHINE, s, rest, false);
      |held| <= |rest| && buf[|buf| - |held|..] == held && Explained(t, done + buf[..|buf| - |held|])
    decreases |buf|, 0
  {
    hide *;
    var rest := buf[|head|..];
    DriveExplained(s, done + head, rest);
    var held := Drive(DISPLAY_MACHINE, s, rest, false).1;
    assert buf[|buf| - |held|..] == rest[|rest| - |held|..];
    assert buf[..|buf| - |held|] == head + rest[..|rest| - |held|];
    assert done + head + rest[..|rest| - |held|] == done + buf[..|buf| - |held|];
  }

  // ---------------------------------------------------------------- the first opener

  lemma EarlierIsFirst(text: bytes, o: Opening, p: Opening)
    requires Opens(text, o) && Opens(text, p) && |o.before + o.word| < |p.before + p.word|
    ensures !First(p)
  {
    hide Unblank, OPENERS, THINK_CLOSE;
    if p.word != [] {
      var e, f := |o.before + o.word|, |p.before + p.word|;
      var front := p.before + p.word[..|p.word| - 1];
      assert front == text[..f - 1];
      assert front[|o.before|..e] == text[|o.before|..e] == o.word;
      assert front[..|o.before|] == text[..|o.before|] == o.before;
      assert AcceptedAt(front, |o.before|, e);
    }
  }

  /** An opener is no end of another. */
  lemma SameOpener(x: bytes, a: bytes, b: bytes)
    requires Unblank(a) in OPENERS && Unblank(b) in OPENERS && b == x + a
    ensures Unblank(a) == Unblank(b)
  {
    hide OPENERS, Unblank;
    UnblankConcat(x, a);
    OpenerBytes(Unblank(a));
    OpenerBytes(Unblank(b));
    assert Unblank(b)[|Unblank(x)|] == Unblank(a)[0] == LT;
    assert [] + Unblank(a) == Unblank(a);
  }

  /** The first opener of a text determines the stanza behind it. */
  lemma FirstIsUnique(text: bytes, o: Opening, p: Opening)
    requires Opens(text, o) && First(o) && Opens(text, p) && First(p)
    ensures Stanza(o) == Stanza(p) && o.behind == p.behind && Lead(o.word) == Lead(p.word)
  {
    hide OPENERS, Unblank, START, First, THINK_CLOSE;
    if |o.before + o.word| < |p.before + p.word| { EarlierIsFirst(text, o, p); }
    if |o.before + o.word| > |p.before + p.word| { EarlierIsFirst(text, p, o); }
    var e := |o.before + o.word|;
    assert o.behind == text[e..] == p.behind;
    assert text[..e] == o.before + o.word == p.before + p.word;
    assert o.word == text[e - |o.word|..e] && p.word == text[e - |p.word|..e];
    if |o.word| <= |p.word| {
      assert p.word[|p.word| - |o.word|..] == o.word;
      assert p.word == p.word[..|p.word| - |o.word|] + o.word;
      SameOpener(p.word[..|p.word| - |o.word|], o.word, p.word);
    } else {
      assert o.word[|o.word| - |p.word|..] == p.word;
      assert o.word == o.word[..|o.word| - |p.word|] + p.word;
      SameOpener(o.word[..|o.word| - |p.word|], p.word, o.word);
    }
  }

  // ---------------------------------------------------------------- the round

  lemma TagsDiffer()
    ensures THINK_OPEN != THINK_CLOSE
  {
    TagLengths();
  }

  lemma NewIsExplained(thinking: bool, text: bytes)
    ensures Explained(NEW.(inThink := thinking), []) && Uncut(NEW.(inThink := thinking), [], text)
  {
    NothingInNothing();
    NoSplitNothing(text);
    var s := NEW.(inThink := thinking);
    assert Tailed(s, [], []) && Comes(s, [], Opening([], [], []), 0);
  }

  /** The display at the end of decoding is explained by the decoded text, but for held bytes. */
  lemma RoundExplained(thinking: bool, passes: seq<Pass>, max: nat) returns (done: bytes)
    ensures var l := Decode(Begin(thinking), passes, max);
      Explained(l.display, done) && done <= Concat(l.transcript)
  {
    hide DISPLAY_MACHINE, Drive, Explained, StreamText, StreamChunks, Decode;
    var s := NEW.(inThink := thinking);
    var l := Decode(Begin(thinking), passes, max);
    RoundStreams(thinking, passes, max);
    StreamChunksIsDriveChunks(s, [], l.transcript);
    ChunksAreOne(DISPLAY_MACHINE, s, [], l.transcript);
    var text := Concat(l.transcript);
    assert [] + text == text;
    NewIsExplained(thinking, text);
    DriveExplained(s, [], text);
    done := [] + text[..|text| - |l.held|];
  }

  /** A finished parser's calls, from the text. */
  lemma DoneComes(s: Display, done: bytes, o: Opening, n: nat, more: bytes)
    requires Comes(s, done, o, n) && s.parser.core.phase == P.Done
    ensures var q := o.(behind := o.behind + more); var k := Starts(s.sink);
      && k > 0 && Opens(done + more, q) && P.Parse(Stanza(q), D.BEGIN).phase == P.Done
      && s.parser.core.calls == Repeat(CallsOf(Stanza(q)), k)
  {
    hide START, Starts, Unblank, Repeat, P.Parse, OPENERS, StartMatch, THINK_CLOSE;
    var q := o.(behind := o.behind + more);
    var x := Stanza(o);
    StanzaGrows(o, more);
    Associative(o.before + o.word, o.behind, more);
    assert x[..n] <= Stanza(q) by { assert (x + more)[..n] == x[..n]; }
    WholeDecides(x, n, Stanza(q));
  }

  /**
   * Where tools come from: if a round runs tools, its text holds an accepted opener, the
   * first one in it (with blanks only if it stands right behind the closing think tag), the
   * text behind it parses to the end of a stanza, and the tools that run are the calls of
   * that one parse, once for each opener that started a call.
   */
  lemma ToolsComeFromText(thinking: bool, passes: seq<Pass>, max: nat, interrupted: bool) returns (o: Opening)
    requires Round(thinking, passes, max, interrupted).RunTools?
    ensures var l := Decode(Begin(thinking), passes, max); var k := Starts(l.display.sink);
      && Opens(Concat(l.transcript), o) && First(o) && P.Parse(Stanza(o), D.BEGIN).phase == P.Done && k > 0
      && Round(thinking, passes, max, interrupted) == RunTools(Repeat(CallsOf(Stanza(o)), k))
  {
    hide Decode, StreamText, Comes, Tailed, START, Starts, Repeat, Stanza, Opens, CallsOf, Consistent;
    ToolsRunExactly(thinking, passes, max, interrupted);
    var l := Decode(Begin(thinking), passes, max);
    var done := RoundExplained(thinking, passes, max);
    assert !Caught(l.display) by { NotCaught(thinking, passes, max, interrupted); }
    var w, q, n: nat :| Tailed(l.display, done, w) && Comes(l.display, done, q, n) && FromFirst(l.display, done, q);
    var text := Concat(l.transcript);
    var more := text[|done|..];
    assert done + more == text;
    DoneComes(l.display, done, q, n, more);
    o := q.(behind := q.behind + more);
  }

  /** A round that runs tools had nothing against them when it stopped decoding. */
  lemma NotCaught(thinking: bool, passes: seq<Pass>, max: nat, interrupted: bool)
    requires Round(thinking, passes, max, interrupted).RunTools?
    ensures !Caught(Decode(Begin(thinking), passes, max).display)
  {
    hide Decode, Drive, Finish, Caught, DISPLAY_MACHINE;
    ToolsRunExactly(thinking, passes, max, interrupted);
    var l := Decode(Begin(thinking), passes, max);
    var t := Drive(DISPLAY_MACHINE, l.display, l.held + [], true).0;
    RoundConsistent(thinking, passes, max);
    DriveKeeps(l.display, l.held + [], true);
    FinishKeeps(t);
    assert !Caught(Finish(t)) by { NothingAgainst(Finish(t)); }
  }

  lemma NothingAgainst(s: Display)
    requires !s.dsmlInThink && s.parser.core.phase == P.Done
    ensures !Caught(s)
  {
  }

  lemma RoundConsistent(thinking: bool, passes: seq<Pass>, max: nat)
    ensures Consistent(Decode(Begin(thinking), passes, max).display)
  {
    hide Decode, Consistent, StreamChunks, StreamText;
    RoundStreams(thinking, passes, max);
    NewIsConsistent(thinking);
    ReachedState(NEW.(inThink := thinking), Decode(Begin(thinking), passes, max).transcript);
  }
}
