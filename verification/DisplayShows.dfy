// What the display shows (ds4_agent.c:3098-3508): a reading of the whole text, part by part,
// that looks ahead for think tags and openers instead of holding bytes back, and the proof
// that the streaming display sends exactly the events of that reading to the terminal.

module DisplayShows {
  import opened Bytes
  import opened DsmlTags
  import P = DsmlParse
  import D = DsmlStream
  import R = DsmlRoundTrip
  import opened TagSplitter
  import opened StreamDisplay
  import opened ToolText
  import opened Openers

  // ---------------------------------------------------------------- the reading

  /**
   * What a reader knows: the parser of the calls, whether the text is thinking, the ends of
   * the text shown outside thinking and of the thinking, whether thinking has held a marker
   * and whether that has been told.
   */
  datatype Look = Look(parser: D.State, think: bool, plain: bytes, musing: bytes, ruled: bool, told: bool)

  type Reader = k: Look | D.Sound(k.parser) witness Look(D.INIT, false, [], [], false, false)

  /** Prose or thinking; the gap right behind a closing tag, with the bytes of a broken opener in it; a call. */
  datatype Mode = Free | Gap(w: bytes) | Call(ignored: bool)

  /** A text is read as a sequence of parts, each with its own bytes. */
  datatype Part =
    | Shown(c: byte)
    | Stray(c: byte)
    | Blank(c: byte)
    | Opened
    | Closed
    | Opener(word: bytes, ignored: bool, more: seq<Event>)
    | CallByte(c: byte, ignored: bool, verdict: seq<Event>)
    | Lost(c: byte)
    | Ended(last: seq<Event>)

  function TextOf(p: Part): bytes {
    match p
    case Shown(c) => [c]
    case Stray(c) => [c]
    case Blank(c) => [c]
    case Opened => THINK_OPEN
    case Closed => THINK_CLOSE
    case Opener(word, _, _) => word
    case CallByte(c, _, _) => [c]
    case Lost(c) => [c]
    case Ended(_) => []
  }

  /** What the terminal gets of a part: a stray marker is reported at its last byte, dropped blanks and lost bytes leave no trace. */
  function EventsOf(p: Part): seq<Event> {
    match p
    case Shown(c) => [Char(c)]
    case Stray(c) => [Char(c), CallMalformed(STRAY_MARKUP)]
    case Blank(_) => []
    case Opened => [ThinkOpened]
    case Closed => [ThinkClosed]
    case Opener(_, ignored, more) => (if ignored then [] else [ToolStarted]) + more
    case CallByte(c, ignored, verdict) => (if ignored then [] else [ToolByte(c)]) + verdict
    case Lost(_) => []
    case Ended(last) => last
  }

  function Spelled(ps: seq<Part>): bytes {
    if ps == [] then [] else TextOf(ps[0]) + Spelled(ps[1..])
  }

  function Events(ps: seq<Part>): seq<Event> {
    if ps == [] then [] else EventsOf(ps[0]) + Events(ps[1..])
  }

  /** Nothing but think tags is noticed any more. */
  predicate Dead(k: Reader) {
    k.parser.core.phase == P.Failed
  }

  /** A byte read while thinking; a marker in thinking rules tools out. */
  function Muse(k: Reader, c: byte): Reader {
    if !k.think || k.ruled || Dead(k) then k
    else
      var tail := LastN(k.musing + [c], DETECTOR);
      if EndsInMarker(tail) then k.(musing := [], ruled := true) else k.(musing := tail)
  }

  /** A byte that is shown: outside thinking it may complete a marker. */
  function Show(k: Reader, c: byte): (Reader, Part) {
    if Dead(k) then (k, Lost(c))
    else if k.think || k.ruled then (k, Shown(c))
    else
      var tail := LastN(k.plain + [c], DETECTOR);
      if EndsInMarker(tail) then (Strays(k.(plain := tail)), Stray(c)) else (k.(plain := tail), Shown(c))
  }

  function Strays(k: Reader): Reader {
    k.(parser := k.parser.(core := k.parser.core.(phase := P.Failed, error := STRAY_MARKUP), closePrefix := false))
  }

  /** A byte of a call: the parser takes it, and a finished or broken stanza is told. */
  function Take(k: Reader, ignored: bool, c: byte): (Reader, bool, seq<Event>) {
    var p := D.Feed(k.parser, [c]);
    if ignored && D.Final(p.core.phase) then
      (k.(parser := D.INIT, musing := [], ruled := true, told := true), false,
       [CallIgnored(if p.core.phase == P.Done then IN_THINKING else MALFORMED_IN_THINKING)])
    else
      (k.(parser := p), ignored,
       if p.core.phase == P.Done then [ToolDone] else if p.core.phase == P.Failed then [ToolFailed(p.core.error)] else [])
  }

  /** The bytes that stand in front of a call whose opener leaves out the outer tag. */
  function TakeAll(k: Reader, ignored: bool, bs: bytes): (Reader, bool, seq<Event>)
    decreases |bs|
  {
    if bs == [] then (k, ignored, [])
    else
      var (q, still, verdict) := Take(k, ignored, bs[0]);
      var (r, last, more) := TakeAll(q, still, bs[1..]);
      (r, last, (if ignored then [] else [ToolByte(bs[0])]) + verdict + more)
  }

  /** A call begins: the parser starts again, and in thinking the call is ignored. */
  function Starts(k: Reader): Reader {
    StartIsSound(k.parser);
    var q := k.(parser := D.Start(k.parser).(closePrefix := false));
    if k.think then q.(musing := [], ruled := true) else q
  }

  function StartCall(k: Reader, opener: bytes): (Reader, bool, seq<Event>) {
    if opener == INVOKE_OPENER || opener == MISSING_BAR_INVOKE then TakeAll(Starts(k), k.think, INVOKE_OPENER)
    else (Starts(k), k.think, [])
  }

  function After(k: Reader, ignored: bool): Mode {
    if P.Active(k.parser.core) then Call(ignored) else Free
  }

  /** The opener at the start of a text. */
  function OpenerHere(t: bytes): (o: Option<bytes>)
    ensures o.Some? ==> o.value in OPENERS && o.value <= t
  {
    if START <= t then Some(START)
    else if MISSING_BAR_START <= t then Some(MISSING_BAR_START)
    else if INVOKE_OPENER <= t then Some(INVOKE_OPENER)
    else if MISSING_BAR_INVOKE <= t then Some(MISSING_BAR_INVOKE)
    else None
  }

  /** The opener in the gap that `w` and the text begin, blanks aside, and where it ends. */
  function OpenerInGap(w: bytes, t: bytes): (r: Option<(bytes, nat)>)
    ensures r.Some? ==> r.value.0 in OPENERS && 0 < r.value.1 <= |t|
    decreases |t|
  {
    if t == [] then None
    else if IsBlank(t[0]) then
      match OpenerInGap(w, t[1..]) case None => None case Some((o, j)) => Some((o, j + 1))
    else if w + [t[0]] in OPENERS then Some((w + [t[0]], 1))
    else if StartMatch(w + [t[0]]) == Prefix then
      match OpenerInGap(w + [t[0]], t[1..]) case None => None case Some((o, j)) => Some((o, j + 1))
    else None
  }

  /** What is told at the end of a text. */
  function LastEvents(k: Reader, mode: Mode): seq<Event> {
    var ignored := mode == Call(true);
    (if ignored then [CallIgnored(IN_THINKING)] else if mode == Call(false) then [ToolInterrupted] else [])
    + (if !ignored && k.ruled && !k.told then [CallIgnored(IN_THINKING)] else [])
  }

  /** The parts of a text. */
  function Parts(k: Reader, mode: Mode, t: bytes): seq<Part>
    decreases |t|, if mode.Gap? then 1 else 0
  {
    if t == [] then [Ended(LastEvents(k, mode))]
    else if mode.Call? then
      var (q, ignored, verdict) := Take(k, mode.ignored, t[0]);
      [CallByte(t[0], mode.ignored, verdict)] + Parts(q, After(q, ignored), t[1..])
    else if THINK_OPEN <= t then [Opened] + Parts(k.(think := true), Free, t[|THINK_OPEN|..])
    else if THINK_CLOSE <= t then [Closed] + Parts(k.(think := false), Gap([]), t[|THINK_CLOSE|..])
    else if Dead(k) then [Lost(t[0])] + Parts(k, mode, t[1..])
    else if mode.Gap? then
      if IsBlank(t[0]) then [Blank(t[0])] + Parts(k, mode, t[1..])
      else if mode.w == [] && OpenerInGap([], t).Some? then
        var (o, j) := OpenerInGap([], t).value;
        var (q, ignored, more) := StartCall(k, o);
        [Opener(t[..j], k.think, more)] + Parts(q, After(q, ignored), t[j..])
      else if StartMatch(mode.w + [t[0]]) == Prefix then
        var (q, p) := Show(k, t[0]);
        [p] + Parts(q, Gap(mode.w + [t[0]]), t[1..])
      else Parts(k, Free, t)
    else
      match OpenerHere(t)
      case Some(o) =>
        OpenerBytes(o);
        var (q, ignored, more) := StartCall(k, o);
        [Opener(o, k.think, more)] + Parts(q, After(q, ignored), t[|o|..])
      case None =>
        var (q, p) := Show(Muse(k, t[0]), t[0]);
        [p] + Parts(q, Free, t[1..])
  }

  /** Malformed markup is reported at a part: a marker outside calls, or a broken call. */
  ghost predicate Reports(p: Part) {
    p.Stray? || exists why :: ToolFailed(why) in EventsOf(p)
  }

  // ---------------------------------------------------------------- the parts are the text

  lemma EventsConcat(a: seq<Part>, b: seq<Part>)
    ensures Events(a + b) == Events(a) + Events(b)
  {
    if a == [] {
      assert a + b == b;
    } else {
      assert (a + b)[1..] == a[1..] + b;
      EventsConcat(a[1..], b);
      Regroup(EventsOf(a[0]), Events(a[1..]), Events(b));
    }
  }

  lemma Regroup(a: seq<Event>, b: seq<Event>, c: seq<Event>)
    ensures a + b + c == a + (b + c)
  {
  }

  lemma SpelledCons(p: Part, ps: seq<Part>)
    ensures Spelled([p] + ps) == TextOf(p) + Spelled(ps) && Events([p] + ps) == EventsOf(p) + Events(ps)
  {
    assert ([p] + ps)[1..] == ps;
  }

  /** The first part of a text, and what is read behind it; a gap that ends is read on as prose. */
  lemma FirstPart(k: Reader, mode: Mode, t: bytes) returns (q: Reader, m: Mode, p: Part, n: nat)
    requires t != []
    ensures n > 0 ==> (p.Lost? ==> Dead(k)) && (Dead(q) ==> Dead(k) || Reports(p))
    ensures n <= |t| && (n == 0 ==> mode.Gap? && m == Free && q == k && Parts(k, mode, t) == Parts(k, Free, t))
    ensures n > 0 ==> Parts(k, mode, t) == [p] + Parts(q, m, t[n..]) && TextOf(p) == t[..n]
  {
    hide Reports, Show, Muse, Take, StartCall, After, OpenerInGap, OpenerHere, StartMatch, LastEvents, THINK_OPEN, THINK_CLOSE, IsBlank;
    TagLengths();
    assert t[..1] == [t[0]];
    if mode.Call? {
      TakeReports(k, mode.ignored, t[0]);
      var (r, ignored, verdict) := Take(k, mode.ignored, t[0]);
      q, m, p, n := r, After(r, ignored), CallByte(t[0], mode.ignored, verdict), 1;
    } else if THINK_OPEN <= t {
      q, m, p, n := k.(think := true), Free, Opened, |THINK_OPEN|;
    } else if THINK_CLOSE <= t {
      q, m, p, n := k.(think := false), Gap([]), Closed, |THINK_CLOSE|;
    } else if Dead(k) {
      q, m, p, n := k, mode, Lost(t[0]), 1;
    } else if mode.Gap? {
      q, m, p, n := FirstInGap(k, mode.w, t);
    } else {
      q, m, p, n := FirstFree(k, t);
    }
  }

  lemma FirstFree(k: Reader, t: bytes) returns (q: Reader, m: Mode, p: Part, n: nat)
    requires t != [] && !(THINK_OPEN <= t) && !(THINK_CLOSE <= t) && !Dead(k)
    ensures !p.Lost? && (Dead(q) ==> Reports(p))
    ensures 0 < n <= |t| && Parts(k, Free, t) == [p] + Parts(q, m, t[n..]) && TextOf(p) == t[..n]
  {
    hide Reports, Show, Muse, Take, StartCall, After, StartMatch, LastEvents, THINK_OPEN, THINK_CLOSE, Dead, IsBlank, OpenerHere;
    match OpenerHere(t) {
      case Some(o) =>
        OpenerBytes(o);
        StartReports(k, o, o);
        var (r, ignored, more) := StartCall(k, o);
        q, m, p, n := r, After(r, ignored), Opener(o, k.think, more), |o|;
      case None =>
        ShowsItself(Muse(k, t[0]), t[0]);
        MuseStaysAwake(k, t[0]);
        var (r, shown) := Show(Muse(k, t[0]), t[0]);
        assert t[..1] == [t[0]];
        q, m, p, n := r, Free, shown, 1;
    }
  }

  lemma FirstInGap(k: Reader, w: bytes, t: bytes) returns (q: Reader, m: Mode, p: Part, n: nat)
    requires t != [] && !(THINK_OPEN <= t) && !(THINK_CLOSE <= t) && !Dead(k)
    ensures n > 0 ==> !p.Lost? && (Dead(q) ==> Reports(p))
    ensures n <= |t| && (n == 0 ==> m == Free && q == k && Parts(k, Gap(w), t) == Parts(k, Free, t))
    ensures n > 0 ==> Parts(k, Gap(w), t) == [p] + Parts(q, m, t[n..]) && TextOf(p) == t[..n]
  {
    hide Reports, Show, Muse, Take, StartCall, After, OpenerInGap, OpenerHere, StartMatch, LastEvents, THINK_OPEN, THINK_CLOSE, Dead, IsBlank;
    assert t[..1] == [t[0]];
    if IsBlank(t[0]) {
      q, m, p, n := k, Gap(w), Blank(t[0]), 1;
    } else if w == [] && OpenerInGap([], t).Some? {
      var (o, j) := OpenerInGap([], t).value;
      StartReports(k, o, t[..j]);
      var (r, ignored, more) := StartCall(k, o);
      q, m, p, n := r, After(r, ignored), Opener(t[..j], k.think, more), j;
    } else if StartMatch(w + [t[0]]) == Prefix {
      ShowsItself(k, t[0]);
      var (r, shown) := Show(k, t[0]);
      q, m, p, n := r, Gap(w + [t[0]]), shown, 1;
    } else {
      q, m, p, n := k, Free, Opened, 0;
    }
  }

  /** Every byte of the text is in one part, in order: nothing is read twice or passed over. */
  lemma {:induction false} PartsSpell(k: Reader, mode: Mode, t: bytes)
    ensures Spelled(Parts(k, mode, t)) == t
    decreases |t|, if mode.Gap? then 1 else 0
  {
    hide *;
    if t == [] {
      NoParts(k, mode);
      SpelledNothing(LastEvents(k, mode));
    } else {
      var q, m, p, n := FirstPart(k, mode, t);
      if n == 0 {
        PartsSpell(k, Free, t);
      } else {
        PartsSpell(q, m, t[n..]);
        SpelledCons(p, Parts(q, m, t[n..]));
        assert t[..n] + t[n..] == t;
      }
    }
  }

  lemma NoParts(k: Reader, mode: Mode)
    ensures Parts(k, mode, []) == [Ended(LastEvents(k, mode))]
  {
  }

  lemma ShowsItself(k: Reader, c: byte)
    ensures TextOf(Show(k, c).1) == [c]
    ensures !Dead(k) ==> !Show(k, c).1.Lost? && (Dead(Show(k, c).0) ==> Reports(Show(k, c).1))
  {
    hide EndsInMarker, STRAY_MARKUP;
  }

  lemma MuseStaysAwake(k: Reader, c: byte)
    ensures Dead(Muse(k, c)) == Dead(k)
  {
    hide EndsInMarker, LastN;
  }

  lemma TakeReports(k: Reader, ignored: bool, c: byte)
    ensures var (q, still, verdict) := Take(k, ignored, c); Dead(q) ==> Reports(CallByte(c, ignored, verdict))
    ensures var (q, still, verdict) := Take(k, ignored, c); Dead(q) ==> verdict == [ToolFailed(q.parser.core.error)]
  {
    hide D.Feed, IN_THINKING, MALFORMED_IN_THINKING;
  }

  lemma StartReports(k: Reader, o: bytes, word: bytes)
    ensures var (q, ignored, more) := StartCall(k, o); Dead(q) ==> Reports(Opener(word, k.think, more))
  {
    hide TakeAll, START, INVOKE_OPENER, MISSING_BAR_INVOKE;
    TakeAllReports(Starts(k), k.think, INVOKE_OPENER);
  }

  lemma {:induction false} TakeAllReports(k: Reader, ignored: bool, bs: bytes)
    requires !Dead(k)
    ensures var (q, still, more) := TakeAll(k, ignored, bs); Dead(q) ==> exists why :: ToolFailed(why) in more
    decreases |bs|
  {
    hide Take;
    if bs != [] {
      var (q, still, verdict) := Take(k, ignored, bs[0]);
      TakeReports(k, ignored, bs[0]);
      if Dead(q) {
        assert ToolFailed(q.parser.core.error) in verdict;
      } else {
        TakeAllReports(q, still, bs[1..]);
      }
    }
  }

  /**
   * Nothing is lost unnoticed: a byte that is neither shown nor part of a tag or a call
   * comes behind a part at which malformed markup was reported.
   */
  lemma {:induction false} LostIsReported(k: Reader, mode: Mode, t: bytes, i: nat)
    requires !Dead(k) && i < |Parts(k, mode, t)| && Parts(k, mode, t)[i].Lost?
    ensures exists j :: 0 <= j < i && Reports(Parts(k, mode, t)[j])
    decreases |t|, if mode.Gap? then 1 else 0
  {
    hide *;
    if t == [] {
      NoParts(k, mode);
    } else {
      var q, m, p, n := FirstPart(k, mode, t);
      if n == 0 {
        LostIsReported(k, Free, t, i);
      } else {
        var ps, rest := Parts(k, mode, t), Parts(q, m, t[n..]);
        assert i > 0 && ps[i] == rest[i - 1];
        if Reports(p) {
          assert ps[0] == p;
        } else {
          LostIsReported(q, m, t[n..], i - 1);
          var j :| 0 <= j < i - 1 && Reports(rest[j]);
          assert ps[j + 1] == rest[j];
        }
      }
    }
  }

  lemma SpelledNothing(last: seq<Event>)
    ensures Spelled([Ended(last)]) == [] && Events([Ended(last)]) == last
  {
    assert [Ended(last)][1..] == [] && last + [] == last;
  }

  // ---------------------------------------------------------------- bytes held and shown

  function MuseAll(k: Reader, h: bytes): Reader
    decreases |h|
  {
    if h == [] then k else MuseAll(Muse(k, h[0]), h[1..])
  }

  /** Bytes that are shown one after the other, up to a stray marker. */
  function ShowAll(k: Reader, h: bytes): (Reader, seq<Event>)
    decreases |h|
  {
    if h == [] then (k, [])
    else
      var (q, p) := Show(Muse(k, h[0]), h[0]);
      var (r, more) := ShowAll(q, h[1..]);
      (r, EventsOf(p) + more)
  }

  lemma {:induction false} DeadShowsNothing(k: Reader, h: bytes)
    requires Dead(k)
    ensures ShowAll(k, h) == (k, [])
    decreases |h|
  {
    if h != [] {
      DeadShowsNothing(k, h[1..]);
      assert EventsOf(Lost(h[0])) + [] == [];
    }
  }

  /** Showing bytes notes them as thinking does, and nothing else about thinking. */
  lemma {:induction false} ShowMuses(k: Reader, h: bytes)
    requires k.think || !Dead(k) || h == []
    ensures var q := ShowAll(k, h).0; var m := MuseAll(k, h);
      && q.think == k.think == m.think && q.told == k.told && q.ruled == m.ruled && q.musing == m.musing
      && (k.think ==> q == m)
    decreases |h|
  {
    hide EndsInMarker, LastN;
    if h != [] {
      var (q, p) := Show(Muse(k, h[0]), h[0]);
      if Dead(q) {
        DeadShowsNothing(q, h[1..]);
        if k.think { DeadMuses(q, h[1..]); } else { AwakeMuses(Muse(k, h[0]), h[1..]); }
      } else {
        ShowMuses(q, h[1..]);
        if !k.think {
          AwakeMuses(q, h[1..]);
          AwakeMuses(Muse(k, h[0]), h[1..]);
        }
      }
    }
  }

  lemma {:induction false} AwakeMuses(k: Reader, h: bytes)
    requires !k.think
    ensures MuseAll(k, h) == k
    decreases |h|
  {
    if h != [] { AwakeMuses(k, h[1..]); }
  }

  lemma {:induction false} DeadMuses(k: Reader, h: bytes)
    requires Dead(k)
    ensures MuseAll(k, h) == k
    decreases |h|
  {
    if h != [] { DeadMuses(k, h[1..]); }
  }

  lemma {:induction false} MuseOne(k: Reader, h: bytes, c: byte)
    ensures MuseAll(k, h + [c]) == Muse(MuseAll(k, h), c)
    decreases |h|
  {
    hide Muse;
    if h == [] {
      assert h + [c] == [c] && [c][1..] == [];
    } else {
      assert (h + [c])[1..] == h[1..] + [c];
      MuseOne(Muse(k, h[0]), h[1..], c);
    }
  }

  lemma {:induction false} ShowOne(k: Reader, h: bytes, c: byte)
    ensures var (q, ev) := ShowAll(k, h); var (r, p) := Show(Muse(q, c), c);
      ShowAll(k, h + [c]) == (r, ev + EventsOf(p))
    decreases |h|
  {
    hide Muse, Show, EventsOf;
    if h == [] {
      assert h + [c] == [c] && [c][1..] == [];
      var p := Show(Muse(k, c), c).1;
      assert EventsOf(p) + [] == EventsOf(p) && [] + EventsOf(p) == EventsOf(p);
    } else {
      assert (h + [c])[1..] == h[1..] + [c];
      var (q, p) := Show(Muse(k, h[0]), h[0]);
      ShowOne(q, h[1..], c);
      var (u, ev) := ShowAll(q, h[1..]);
      Regroup(EventsOf(p), ev, EventsOf(Show(Muse(u, c), c).1));
    }
  }

  // ---------------------------------------------------------------- no opener and no tag

  /** At none of the bytes of `h` a tag or an opener starts. */
  ghost predicate Plainly(h: bytes, rest: bytes) {
    forall i :: 0 <= i < |h| ==> NothingStarts((h + rest)[i..])
  }

  ghost predicate NothingStarts(t: bytes) {
    !(THINK_OPEN <= t) && !(THINK_CLOSE <= t) && OpenerHere(t).None?
  }

  lemma OtherStartsNothing(t: bytes)
    requires t != [] && t[0] != LT
    ensures NothingStarts(t)
  {
    hide START, MISSING_BAR_START, INVOKE_OPENER, MISSING_BAR_INVOKE;
    OpenerBytes(START);
    OpenerBytes(MISSING_BAR_START);
    OpenerBytes(INVOKE_OPENER);
    OpenerBytes(MISSING_BAR_INVOKE);
  }

  /** An opener that a text starts with is found. */
  lemma OpenerIsHere(o: bytes, rest: bytes)
    requires o in OPENERS
    ensures OpenerHere(o + rest) == Some(o)
  {
    hide START, MISSING_BAR_START, INVOKE_OPENER, MISSING_BAR_INVOKE;
    OpenersDiffer();
    OpenerLengths();
    var t := o + rest;
    PrefixesCompare(START, o, t);
    PrefixesCompare(MISSING_BAR_START, o, t);
    PrefixesCompare(INVOKE_OPENER, o, t);
    PrefixesCompare(MISSING_BAR_INVOKE, o, t);
  }

  lemma PrefixesCompare(a: bytes, b: bytes, t: bytes)
    requires b <= t
    ensures a <= t ==> a <= b || b <= a
  {
    if a <= t && |a| <= |b| { assert a == t[..|a|] == b[..|a|]; }
    if a <= t && |b| <= |a| { assert b == t[..|b|] == a[..|b|]; }
  }

  /** Bytes that a text cannot go on from to an opener start none. */
  lemma BrokenStartsNone(h: bytes, rest: bytes)
    requires StartMatch(h) == Prefix && (rest == [] || StartMatch(h + [rest[0]]) == NoMatch)
    ensures OpenerHere(h + rest).None?
  {
    hide START, MISSING_BAR_START, INVOKE_OPENER, MISSING_BAR_INVOKE, StartMatch;
    NotOpenedBy(h, rest, START);
    NotOpenedBy(h, rest, MISSING_BAR_START);
    NotOpenedBy(h, rest, INVOKE_OPENER);
    NotOpenedBy(h, rest, MISSING_BAR_INVOKE);
  }

  lemma NotOpenedBy(h: bytes, rest: bytes, o: bytes)
    requires StartMatch(h) == Prefix && (rest == [] || StartMatch(h + [rest[0]]) == NoMatch) && o in OPENERS
    ensures !(o <= h + rest)
  {
    hide OPENERS, StartMatch;
    var t := h + rest;
    NotInside(h, o);
    if |o| <= |h| {
      assert t[..|o|] == h[..|o|];
    } else if rest != [] {
      var n := |h| + 1;
      assert t[..n] == h + [rest[0]];
      StartsMatch(o, n);
      SamePrefix(o, t, n);
    }
  }

  lemma SamePrefix(a: bytes, t: bytes, n: nat)
    requires n <= |a| && n <= |t|
    ensures a <= t ==> a[..n] == t[..n]
  {
    if a <= t { assert a == t[..|a|]; }
  }

  lemma StartsMatch(o: bytes, n: nat)
    requires o in OPENERS
    ensures 0 < n <= |o| ==> StartMatch(o[..n]) != NoMatch
  {
    hide OPENERS, StartMatch;
    if 0 < n <= |o| { OpenerStarts(o, n); }
  }

  /** What is a proper beginning of an opener holds no whole one. */
  lemma NotInside(h: bytes, o: bytes)
    requires StartMatch(h) == Prefix && o in OPENERS
    ensures !(o <= h)
  {
    hide START, MISSING_BAR_START, INVOKE_OPENER, MISSING_BAR_INVOKE;
    OpenersDiffer();
    OpenerLengths();
    PrefixGoesOn(o, h, START);
    PrefixGoesOn(o, h, MISSING_BAR_START);
    PrefixGoesOn(o, h, INVOKE_OPENER);
    PrefixGoesOn(o, h, MISSING_BAR_INVOKE);
  }

  lemma PrefixGoesOn(o: bytes, h: bytes, x: bytes)
    ensures o <= h && h <= x ==> o <= x
  {
    if o <= h && h <= x { assert o == h[..|o|] == x[..|o|]; }
  }

  lemma TagsAreNoOpeners(h: bytes)
    requires StartMatch(h) == Prefix && |h| > 1
    ensures forall rest: bytes :: !(THINK_OPEN <= h + rest) && !(THINK_CLOSE <= h + rest)
  {
    SecondByte(h);
    TagLengths();
    forall rest: bytes ensures !(THINK_OPEN <= h + rest) && !(THINK_CLOSE <= h + rest) {
      assert (h + rest)[1] == h[1];
    }
  }

  lemma SecondByte(h: bytes)
    requires StartMatch(h) == Prefix && |h| > 1
    ensures h[1] == 0xEF || h[1] == 0x44
  {
    assert START[1] == 0xEF && INVOKE_OPENER[1] == 0xEF && MISSING_BAR_START[1] == 0x44 && MISSING_BAR_INVOKE[1] == 0x44;
  }

  /** Held bytes that do not open a call are shown, if no tag starts with them. */
  lemma HeldIsPlain(h: bytes, rest: bytes)
    requires StartMatch(h) == Prefix && (rest == [] || StartMatch(h + [rest[0]]) == NoMatch)
    requires !(THINK_OPEN <= h + rest) && !(THINK_CLOSE <= h + rest)
    ensures Plainly(h, rest)
  {
    hide START, MISSING_BAR_START, INVOKE_OPENER, MISSING_BAR_INVOKE, StartMatch, THINK_OPEN, THINK_CLOSE;
    BrokenStartsNone(h, rest);
    MatchShape(h);
    forall i | 0 <= i < |h| ensures NothingStarts((h + rest)[i..]) {
      if i == 0 {
        assert (h + rest)[0..] == h + rest;
      } else {
        assert (h + rest)[i..][0] == h[i];
        OtherStartsNothing((h + rest)[i..]);
      }
    }
  }

  /** A text read as prose shows its first bytes if nothing starts at them. */
  lemma {:induction false} FreeShows(k: Reader, h: bytes, rest: bytes)
    requires Plainly(h, rest)
    ensures Events(Parts(k, Free, h + rest)) == ShowAll(k, h).1 + Events(Parts(ShowAll(k, h).0, Free, rest))
    decreases |h|
  {
    hide Show, Muse, EventsOf, NothingStarts, OpenerHere, Parts, Dead;
    if h == [] {
      assert h + rest == rest && [] + Events(Parts(k, Free, rest)) == Events(Parts(k, Free, rest));
    } else {
      var t := h + rest;
      assert t[0..] == t && NothingStarts(t[0..]);
      assert t[1..] == h[1..] + rest;
      forall i | 0 <= i < |h[1..]| ensures NothingStarts((h[1..] + rest)[i..]) {
        assert (h[1..] + rest)[i..] == t[i + 1..];
      }
      var (q, p) := Show(Muse(k, h[0]), h[0]);
      FreeByte(k, t);
      FreeShows(q, h[1..], rest);
      SpelledCons(p, Parts(q, Free, t[1..]));
      Regroup(EventsOf(p), ShowAll(q, h[1..]).1, Events(Parts(ShowAll(q, h[1..]).0, Free, rest)));
    }
  }

  lemma FreeByte(k: Reader, t: bytes)
    requires t != [] && NothingStarts(t)
    ensures var (q, p) := Show(Muse(k, t[0]), t[0]); Parts(k, Free, t) == [p] + Parts(q, Free, t[1..])
  {
    hide THINK_OPEN, THINK_CLOSE, EndsInMarker, LastN, START, MISSING_BAR_START, INVOKE_OPENER, MISSING_BAR_INVOKE;
  }

  // ---------------------------------------------------------------- the display knows what the reader knows

  /** But for bytes that are held, the display knows what the reader knows. */
  ghost predicate Alike(s: Display, k: Reader) {
    && s.parser == k.parser && s.inThink == k.think && s.plainTail == k.plain && s.reported == k.told
    && |s.plainTail| <= DETECTOR && s.dsmlInThink == k.ruled && (!k.ruled ==> s.thinkTail == k.musing)
  }

  lemma TakeFollows(s: Display, k: Reader, c: byte)
    requires Alike(s, k)
    ensures var t := FeedDsml(s, c); var (q, ignored, verdict) := Take(k, s.dsmlIgnored, c);
      && Alike(t, q) && t.dsmlIgnored == ignored && t.startTail == s.startTail && t.postThinkGap == s.postThinkGap
      && t.sink == s.sink + ((if s.dsmlIgnored then [] else [ToolByte(c)]) + verdict)
  {
    hide FeedDsml, Take, Alike;
    if s.dsmlIgnored { TakeIgnored(s, k, c); } else { TakeShown(s, k, c); }
  }

  lemma TakeIgnored(s: Display, k: Reader, c: byte)
    requires Alike(s, k) && s.dsmlIgnored
    ensures var t := FeedDsml(s, c); var (q, ignored, verdict) := Take(k, true, c);
      && Alike(t, q) && t.dsmlIgnored == ignored && t.startTail == s.startTail && t.postThinkGap == s.postThinkGap
      && t.sink == s.sink + ([] + verdict)
  {
    hide D.Feed, IN_THINKING, MALFORMED_IN_THINKING, D.Sound, FinishIgnored, Alike;
    SameParsers(s, k);
    var p := D.Feed(s.parser, [c]);
    var t := s.(parser := p);
    if D.Final(p.core.phase) {
      var why := if p.core.phase == P.Done then IN_THINKING else MALFORMED_IN_THINKING;
      IgnoredEnds(s, t, k, why);
      assert FeedDsml(s, c) == FinishIgnored(t, why);
      assert s.sink + ([] + [CallIgnored(why)]) == s.sink + [CallIgnored(why)];
    } else {
      AlikeParser(s, k, p);
      assert s.sink + ([] + []) == s.sink;
    }
  }

  lemma IgnoredEnds(s: Display, t: Display, k: Reader, why: bytes)
    requires Alike(s, k) && t == s.(parser := t.parser)
    ensures var u := FinishIgnored(t, why);
      && Alike(u, k.(parser := D.INIT, musing := [], ruled := true, told := true))
      && !u.dsmlIgnored && u.startTail == s.startTail && u.postThinkGap == s.postThinkGap && u.sink == s.sink + [CallIgnored(why)]
  {
  }

  lemma SameParsers(s: Display, k: Reader)
    requires Alike(s, k)
    ensures s.parser == k.parser && s.inThink == k.think
  {
  }

  lemma AlikeParser(s: Display, k: Reader, p: D.State)
    requires Alike(s, k) && D.Sound(p)
    ensures Alike(s.(parser := p), k.(parser := p))
  {
  }

  lemma TakeShown(s: Display, k: Reader, c: byte)
    requires Alike(s, k) && !s.dsmlIgnored
    ensures var t := FeedDsml(s, c); var (q, ignored, verdict) := Take(k, false, c);
      && Alike(t, q) && t.dsmlIgnored == ignored && t.startTail == s.startTail && t.postThinkGap == s.postThinkGap
      && t.sink == s.sink + ([ToolByte(c)] + verdict)
  {
    hide D.Feed, IN_THINKING, MALFORMED_IN_THINKING, D.Sound, FinishIgnored;
    var verdict := Take(k, false, c).2;
    assert s.sink + [ToolByte(c)] + verdict == s.sink + ([ToolByte(c)] + verdict);
    assert s.sink + [ToolByte(c)] == s.sink + ([ToolByte(c)] + []);
  }

  lemma {:induction false} TakeAllFollows(s: Display, k: Reader, bs: bytes)
    requires Alike(s, k)
    ensures var t := FeedDsmlBytes(s, bs); var (q, ignored, more) := TakeAll(k, s.dsmlIgnored, bs);
      && Alike(t, q) && t.dsmlIgnored == ignored && t.startTail == s.startTail && t.postThinkGap == s.postThinkGap
      && t.sink == s.sink + more
    decreases |bs|
  {
    hide FeedDsml, Take, Alike;
    if bs == [] {
      assert s.sink + [] == s.sink;
    } else {
      TakeFollows(s, k, bs[0]);
      var t := FeedDsml(s, bs[0]);
      var (q, ignored, verdict) := Take(k, s.dsmlIgnored, bs[0]);
      TakeAllFollows(t, q, bs[1..]);
      var first := (if s.dsmlIgnored then [] else [ToolByte(bs[0])]) + verdict;
      Regroup(s.sink, first, TakeAll(q, ignored, bs[1..]).2);
    }
  }

  /** A call that begins, whatever was held of thinking. */
  lemma BeginFollows(s: Display, k: Reader, o: bytes)
    requires o in OPENERS && s.parser == k.parser && s.inThink == k.think && s.plainTail == k.plain && s.reported == k.told
    requires |s.plainTail| <= DETECTOR && (!k.think ==> s.dsmlInThink == k.ruled && (!k.ruled ==> s.thinkTail == k.musing))
    ensures var t := BeginCall(s, o == INVOKE_OPENER || o == MISSING_BAR_INVOKE); var (q, ignored, more) := StartCall(k, o);
      && Alike(t, q) && t.dsmlIgnored == ignored && t.startTail == [] && !t.postThinkGap
      && t.sink == s.sink + ((if k.think then [] else [ToolStarted]) + more)
  {
    hide FeedDsmlBytes, TakeAll, START, INVOKE_OPENER, MISSING_BAR_INVOKE, OPENERS;
    var u := StartDsml(s, s.inThink);
    TakeAllFollows(u, Starts(k), INVOKE_OPENER);
    var start := if k.think then [] else [ToolStarted];
    assert u.sink == s.sink + start;
    assert s.sink + start == s.sink + (start + []);
    Regroup(s.sink, start, TakeAll(Starts(k), k.think, INVOKE_OPENER).2);
  }

  lemma SlideIs(tail: bytes, c: byte)
    requires |tail| <= DETECTOR
    ensures Slide(tail, c) == LastN(tail + [c], DETECTOR)
  {
  }

  /** One byte that is shown. */
  lemma ShowFollows(s: Display, k: Reader, c: byte)
    requires s.parser == k.parser && s.inThink == k.think && s.plainTail == k.plain && s.reported == k.told
    requires !Dead(k) && !s.dsmlActive && |s.plainTail| <= DETECTOR && (!k.think ==> s.dsmlInThink == k.ruled)
    ensures var t := NotePlain(Emit(s, Char(c)), c); var (q, p) := Show(Muse(k, c), c);
      && t == s.(sink := t.sink, parser := t.parser, plainTail := t.plainTail) && t.sink == s.sink + EventsOf(p)
      && t.parser == q.parser && t.plainTail == q.plain && |t.plainTail| <= DETECTOR
      && q.think == k.think && q.told == k.told && (!k.think ==> q.ruled == k.ruled && q.musing == k.musing)
  {
    hide EndsInMarker, STRAY_MARKUP, Slide, LastN, D.Sound;
    SlideIs(s.plainTail, c);
    assert s.sink + [Char(c)] + [CallMalformed(STRAY_MARKUP)] == s.sink + [Char(c), CallMalformed(STRAY_MARKUP)];
  }

  /** Bytes that are shown, up to a stray marker. */
  lemma {:induction false} FlushFollows(s: Display, k: Reader, bs: bytes)
    requires s.parser == k.parser && s.inThink == k.think && s.plainTail == k.plain && s.reported == k.told
    requires (bs == [] || !Dead(k)) && !s.dsmlActive && |s.plainTail| <= DETECTOR && (!k.think ==> s.dsmlInThink == k.ruled)
    ensures var t := FlushBytes(s, bs); var (q, ev) := ShowAll(k, bs);
      && t == s.(sink := t.sink, parser := t.parser, plainTail := t.plainTail) && t.sink == s.sink + ev
      && t.parser == q.parser && t.plainTail == q.plain && |t.plainTail| <= DETECTOR
      && q.think == k.think && q.told == k.told && (!k.think ==> q.ruled == k.ruled && q.musing == k.musing)
    decreases |bs|
  {
    hide NotePlain, Show, Muse, EventsOf;
    if bs == [] {
      assert s.sink + [] == s.sink;
    } else {
      ShowFollows(s, k, bs[0]);
      var t := NotePlain(Emit(s, Char(bs[0])), bs[0]);
      var (q, p) := Show(Muse(k, bs[0]), bs[0]);
      if Dead(q) {
        DeadShowsNothing(q, bs[1..]);
        assert EventsOf(p) + [] == EventsOf(p);
      } else {
        FlushFollows(t, q, bs[1..]);
        Regroup(s.sink, EventsOf(p), ShowAll(q, bs[1..]).1);
      }
    }
  }

  // ---------------------------------------------------------------- held bytes

  /** What the display has noted of thinking, held bytes included. */
  ghost predicate Mused(s: Display, k: Reader, h: bytes) {
    var q := MuseAll(k, h);
    q.ruled == s.dsmlInThink && (!q.ruled ==> q.musing == s.thinkTail)
  }

  /** The display and a reader who stands in front of the bytes that are held. */
  ghost predicate Follows(s: Display, k: Reader) {
    && s.parser == k.parser && s.inThink == k.think && s.plainTail == k.plain && s.reported == k.told
    && |s.plainTail| <= DETECTOR && Consistent(s) && Mused(s, k, s.startTail)
    && (s.startTail == [] || StartMatch(s.startTail) == Prefix)
    && (s.dsmlActive || Dead(k) ==> s.startTail == []) && (s.dsmlActive ==> !s.postThinkGap) && (s.postThinkGap ==> !s.inThink)
  }

  /** The events of a call that begins with opener `o` in front of `rest`. */
  function CallEvents(k: Reader, o: bytes, rest: bytes): seq<Event> {
    var (q, ignored, more) := StartCall(k, o);
    (if k.think then [] else [ToolStarted]) + more + Events(Parts(q, After(q, ignored), rest))
  }

  /** The events of bytes held in the gap and of what follows them. */
  function GapEvents(k: Reader, h: bytes, rest: bytes): seq<Event> {
    match OpenerInGap(h, rest)
    case Some((o, j)) => CallEvents(k, o, rest[j..])
    case None => var (q, ev) := ShowAll(k, h); ev + Events(Parts(q, Gap(h), rest))
  }

  /** The events that are still to come. */
  function Rest(s: Display, k: Reader, buf: bytes): seq<Event> {
    if s.dsmlActive then Events(Parts(k, Call(s.dsmlIgnored), buf))
    else if !s.postThinkGap then Events(Parts(k, Free, s.startTail + buf))
    else if s.startTail == [] then Events(Parts(k, Gap([]), buf))
    else GapEvents(k, s.startTail, buf)
  }

  /** Held bytes and what follows them are no tag. */
  ghost predicate Apart(s: Display, buf: bytes) {
    s.startTail != [] && !s.postThinkGap ==> !(THINK_OPEN <= s.startTail + buf) && !(THINK_CLOSE <= s.startTail + buf)
  }

  /** The display went from one state to another and nothing of the events was lost. */
  ghost predicate Keeps(s: Display, k: Reader, buf: bytes, t: Display, q: Reader, rest: bytes) {
    Follows(t, q) && s.sink + Rest(s, k, buf) == t.sink + Rest(t, q, rest)
  }

  lemma NoneMused(s: Display, k: Reader)
    ensures Mused(s, k, []) <==> k.ruled == s.dsmlInThink && (!k.ruled ==> k.musing == s.thinkTail)
  {
  }

  lemma AlikeFollows(s: Display, k: Reader)
    requires Alike(s, k) && Consistent(s) && s.startTail == [] && !s.postThinkGap
    ensures Follows(s, k)
  {
    NoneMused(s, k);
  }

  lemma FollowsAlike(s: Display, k: Reader)
    requires Follows(s, k) && s.startTail == []
    ensures Alike(s, k)
  {
    NoneMused(s, k);
  }

  // ---------------------------------------------------------------- a byte of a call

  lemma KeepsCall(s: Display, k: Reader, c: byte, rest: bytes) returns (q: Reader)
    requires Follows(s, k) && s.dsmlActive
    ensures Keeps(s, k, [c] + rest, StreamByte(s, c), q, rest)
  {
    hide FeedDsml, Take, Alike, Mused, Parts, Consistent, StartMatch;
    FollowsAlike(s, k);
    TakeFollows(s, k, c);
    StreamByteKeeps(s, c);
    var t := FeedDsml(s, c);
    var (r, ignored, verdict) := Take(k, s.dsmlIgnored, c);
    q := r;
    AlikeFollows(t, q);
    SameParsers(t, q);
    ActiveIs(t);
    var buf := [c] + rest;
    assert buf[0] == c && buf[1..] == rest;
    CallParts(k, s.dsmlIgnored, buf);
    var p := CallByte(c, s.dsmlIgnored, verdict);
    var more := Parts(q, After(q, ignored), rest);
    SpelledCons(p, more);
    assert [] + rest == rest;
    Regroup(s.sink, EventsOf(p), Events(more));
  }

  lemma ActiveIs(s: Display)
    requires Consistent(s)
    ensures s.dsmlActive <==> P.Active(s.parser.core)
  {
  }

  lemma CallParts(k: Reader, ignored: bool, t: bytes)
    requires t != []
    ensures var (q, still, verdict) := Take(k, ignored, t[0]);
      Parts(k, Call(ignored), t) == [CallByte(t[0], ignored, verdict)] + Parts(q, After(q, still), t[1..])
  {
    hide Take, After;
  }

  // ---------------------------------------------------------------- a call begins

  lemma KeepsBegin(s: Display, n: Display, k: Reader, o: bytes, buf: bytes, rest: bytes) returns (q: Reader)
    requires Follows(s, k) && !s.dsmlActive && o in OPENERS
    requires n == s.(thinkTail := n.thinkTail, dsmlInThink := n.dsmlInThink, startTail := n.startTail)
    requires !k.think ==> n.dsmlInThink == s.dsmlInThink && n.thinkTail == s.thinkTail
    requires Rest(s, k, buf) == CallEvents(k, o, rest)
    ensures Keeps(s, k, buf, BeginCall(n, o == INVOKE_OPENER || o == MISSING_BAR_INVOKE), q, rest)
  {
    hide BeginCall, StartCall, Alike, Parts, Consistent, StartMatch, Rest, OPENERS, INVOKE_OPENER, MISSING_BAR_INVOKE;
    if !k.think { AwakeMuses(k, s.startTail); }
    BeginFollows(n, k, o);
    var t := BeginCall(n, o == INVOKE_OPENER || o == MISSING_BAR_INVOKE);
    var (r, ignored, more) := StartCall(k, o);
    q := r;
    BeginCallKeeps(n, o == INVOKE_OPENER || o == MISSING_BAR_INVOKE);
    AlikeFollows(t, q);
    SameParsers(t, q);
    ActiveIs(t);
    RestOfCall(t, q, ignored, rest);
    var start := if k.think then [] else [ToolStarted];
    Regroup(s.sink, start + more, Rest(t, q, rest));
  }

  lemma RestOfCall(t: Display, q: Reader, ignored: bool, rest: bytes)
    requires t.parser == q.parser && (t.dsmlActive <==> P.Active(q.parser.core)) && t.dsmlIgnored == ignored
    requires t.startTail == [] && !t.postThinkGap
    ensures Rest(t, q, rest) == Events(Parts(q, After(q, ignored), rest))
  {
    hide Parts;
    assert [] + rest == rest;
  }

  // ---------------------------------------------------------------- a byte outside calls

  /** What `NoteThinking` leaves of a state. */
  ghost predicate Noted(s: Display, n: Display, k: Reader, c: byte) {
    n == s.(thinkTail := n.thinkTail, dsmlInThink := n.dsmlInThink) && Mused(n, k, s.startTail + [c])
    && (!k.think ==> n == s)
  }

  lemma NoteFollows(s: Display, k: Reader, c: byte)
    requires Follows(s, k) && !Dead(k)
    ensures Noted(s, NoteThinking(s, c), k, c)
  {
    hide EndsInMarker, Slide, LastN, Consistent, StartMatch;
    MuseOne(k, s.startTail, c);
    ShowMuses(k, s.startTail);
    MusedIsAwake(k, s.startTail);
    SlideIs(s.thinkTail, c);
  }

  lemma {:induction false} MusedIsAwake(k: Reader, h: bytes)
    ensures var q := MuseAll(k, h); q.think == k.think && q.parser == k.parser
    decreases |h|
  {
    hide EndsInMarker, LastN;
    if h != [] { MusedIsAwake(Muse(k, h[0]), h[1..]); }
  }

  /** Nothing more is noticed. */
  lemma KeepsDead(s: Display, k: Reader, c: byte, rest: bytes)
    requires Follows(s, k) && !s.dsmlActive && Dead(k) && !(THINK_OPEN <= [c] + rest) && !(THINK_CLOSE <= [c] + rest)
    ensures Keeps(s, k, [c] + rest, StreamByte(s, c), k, rest)
  {
    hide *;
    DeadByte(s, k, c, rest);
    DeadIs(s, k);
    DeadRest(s, k, c, rest);
    KeepsIs(s, k, [c] + rest, s, k, rest);
  }

  lemma DeadRest(s: Display, k: Reader, c: byte, rest: bytes)
    requires !s.dsmlActive && Dead(k) && s.startTail == [] && !(THINK_OPEN <= [c] + rest) && !(THINK_CLOSE <= [c] + rest)
    ensures Rest(s, k, [c] + rest) == Rest(s, k, rest)
  {
    hide THINK_OPEN, THINK_CLOSE, Parts, GapEvents, Dead;
    var buf := [c] + rest;
    assert buf[0] == c && buf[1..] == rest && [] + buf == buf && [] + rest == rest;
    var mode := if s.postThinkGap then Gap([]) else Free;
    DeadParts(k, mode, buf);
    SpelledCons(Lost(c), Parts(k, mode, rest));
  }

  lemma DeadParts(k: Reader, mode: Mode, t: bytes)
    requires Dead(k) && !mode.Call? && t != [] && !(THINK_OPEN <= t) && !(THINK_CLOSE <= t)
    ensures Parts(k, mode, t) == [Lost(t[0])] + Parts(k, mode, t[1..])
  {
    hide THINK_OPEN, THINK_CLOSE, OpenerHere, OpenerInGap, Show, Muse, StartCall;
  }

  /** A reader who notices nothing more reads a gap like prose. */
  lemma {:induction false} DeadGap(k: Reader, w: bytes, t: bytes)
    requires Dead(k)
    ensures Events(Parts(k, Gap(w), t)) == Events(Parts(k, Free, t))
    decreases |t|
  {
    hide THINK_OPEN, THINK_CLOSE, Parts, Dead;
    if t == [] {
      NoParts(k, Gap(w));
      NoParts(k, Free);
    } else if THINK_OPEN <= t || THINK_CLOSE <= t {
      TagParts(k, Gap(w), t);
      TagParts(k, Free, t);
    } else {
      DeadParts(k, Gap(w), t);
      DeadParts(k, Free, t);
      DeadGap(k, w, t[1..]);
      SpelledCons(Lost(t[0]), Parts(k, Gap(w), t[1..]));
      SpelledCons(Lost(t[0]), Parts(k, Free, t[1..]));
    }
  }

  lemma TagParts(k: Reader, mode: Mode, t: bytes)
    requires !mode.Call? && (THINK_OPEN <= t || THINK_CLOSE <= t)
    ensures |THINK_OPEN| > 0 && |THINK_CLOSE| > 0
    ensures Parts(k, mode, t) == if THINK_OPEN <= t then [Opened] + Parts(k.(think := true), Free, t[|THINK_OPEN|..])
                                 else [Closed] + Parts(k.(think := false), Gap([]), t[|THINK_CLOSE|..])
  {
    hide THINK_OPEN, THINK_CLOSE, OpenerHere, OpenerInGap, Show, Muse, StartCall;
    TagLengths();
  }

  /** A blank in the gap is dropped. */
  lemma KeepsBlank(s: Display, k: Reader, c: byte, rest: bytes)
    requires Follows(s, k) && !s.dsmlActive && !Dead(k) && s.postThinkGap && IsBlank(c)
    ensures Keeps(s, k, [c] + rest, s, k, rest)
  {
    hide *;
    BlankRest(s, k, c, rest);
    KeepsIs(s, k, [c] + rest, s, k, rest);
  }

  lemma BlankRest(s: Display, k: Reader, c: byte, rest: bytes)
    requires !s.dsmlActive && !Dead(k) && s.postThinkGap && IsBlank(c)
    ensures Rest(s, k, [c] + rest) == Rest(s, k, rest)
  {
    hide Parts, GapEvents, THINK_OPEN, THINK_CLOSE, Dead, IsBlank, Events;
    var buf := [c] + rest;
    assert buf[0] == c && buf[1..] == rest;
    BlankStartsNothing(c, buf);
    if s.startTail == [] {
      GapBlank(k, [], buf);
      var e := Events(Parts(k, Gap([]), rest));
      SpelledCons(Blank(c), Parts(k, Gap([]), rest));
      assert [] + e == e;
    } else {
      HeldBlank(k, s.startTail, buf);
    }
  }

  lemma HeldBlank(k: Reader, h: bytes, t: bytes)
    requires t != [] && IsBlank(t[0]) && !(THINK_OPEN <= t) && !(THINK_CLOSE <= t)
    ensures GapEvents(k, h, t) == GapEvents(k, h, t[1..])
  {
    hide THINK_OPEN, THINK_CLOSE, Parts, ShowAll, CallEvents, OpenerInGap, Dead, IsBlank;
    var (q, ev) := ShowAll(k, h);
    GapBlank(q, h, t);
    GapSkips(h, t);
    SpelledCons(if Dead(q) then Lost(t[0]) else Blank(t[0]), Parts(q, Gap(h), t[1..]));
    if OpenerInGap(h, t).Some? {
      var j := OpenerInGap(h, t).value.1;
      assert t[j..] == t[1..][j - 1..];
    }
  }

  lemma BlankStartsNothing(c: byte, buf: bytes)
    requires IsBlank(c) && buf != [] && buf[0] == c
    ensures !(THINK_OPEN <= buf) && !(THINK_CLOSE <= buf)
  {
  }

  lemma GapBlank(k: Reader, w: bytes, t: bytes)
    requires t != [] && IsBlank(t[0]) && !(THINK_OPEN <= t) && !(THINK_CLOSE <= t)
    ensures Parts(k, Gap(w), t) == [if Dead(k) then Lost(t[0]) else Blank(t[0])] + Parts(k, Gap(w), t[1..])
  {
    hide THINK_OPEN, THINK_CLOSE, OpenerHere, OpenerInGap, Show, Muse, StartCall;
  }

  lemma GapSkips(h: bytes, t: bytes)
    requires t != [] && IsBlank(t[0])
    ensures var a, b := OpenerInGap(h, t), OpenerInGap(h, t[1..]);
      a.Some? == b.Some? && (a.Some? ==> a.value.0 == b.value.0 && a.value.1 == b.value.1 + 1)
  {
    hide StartMatch;
  }

  /** A byte that is shown at once. */
  lemma KeepsShown(s: Display, k: Reader, c: byte, rest: bytes) returns (q: Reader)
    requires Follows(s, k) && !s.dsmlActive && !Dead(k) && s.startTail == [] && c != LT && !(s.postThinkGap && IsBlank(c))
    requires Noted(s, NoteThinking(s, c), k, c)
    ensures var n := NoteThinking(s, c);
      Keeps(s, k, [c] + rest, NotePlain(Emit(n.(postThinkGap := false), Char(c)), c), q, rest)
  {
    hide THINK_OPEN, THINK_CLOSE, StartMatch, Consistent, NoteThinking, NotePlain, Show, Muse, Parts, EventsOf, OpenerHere;
    var n := NoteThinking(s, c).(postThinkGap := false);
    var buf := [c] + rest;
    assert buf[0] == c && buf[1..] == rest && [] + buf == buf && [] + rest == rest && [] + [c] == [c];
    ShowFollows(n, k, c);
    var (r, p) := Show(Muse(k, c), c);
    q := r;
    var t := NotePlain(Emit(n, Char(c)), c);
    OtherStartsNothing(buf);
    ShownParts(k, s.postThinkGap, buf);
    SpelledCons(p, Parts(q, Free, rest));
    Regroup(s.sink, EventsOf(p), Events(Parts(q, Free, rest)));
    OneMused(k, c);
    NoneMused(t, q);
    SameParser(s, n);
    ConsistentFlush(n, c);
  }

  lemma SameParser(s: Display, t: Display)
    requires t.parser == s.parser && t.dsmlActive == s.dsmlActive
    ensures Consistent(s) == Consistent(t)
  {
  }

  lemma OneMused(k: Reader, c: byte)
    ensures MuseAll(k, [c]) == Muse(k, c)
    ensures var q := Show(Muse(k, c), c).0; q.ruled == Muse(k, c).ruled && q.musing == Muse(k, c).musing
  {
    hide EndsInMarker, LastN;
    assert [c][1..] == [];
  }

  lemma ConsistentFlush(n: Display, c: byte)
    requires Consistent(n) && !n.dsmlActive
    ensures Consistent(NotePlain(Emit(n, Char(c)), c))
  {
    hide NotePlain;
    assert FlushBytes(n, [c]) == NotePlain(Emit(n, Char(c)), c) by { assert [c][1..] == []; }
    FlushKeeps(n, [c]);
  }

  lemma ShownParts(k: Reader, gap: bool, t: bytes)
    requires t != [] && t[0] != LT && !Dead(k) && NothingStarts(t) && (gap ==> !IsBlank(t[0]))
    ensures var (q, p) := Show(Muse(k, t[0]), t[0]);
      Parts(k, if gap then Gap([]) else Free, t) == [p] + Parts(q, Free, t[1..])
  {
    hide THINK_OPEN, THINK_CLOSE, StartMatch, Show, Muse, Parts;
    FreeByte(k, t);
    if gap { GapEnds(k, [], t); }
  }

  /** A byte that opens nothing ends the gap. */
  lemma GapEnds(k: Reader, w: bytes, t: bytes)
    requires t != [] && !Dead(k) && !(THINK_OPEN <= t) && !(THINK_CLOSE <= t) && !IsBlank(t[0])
    requires if w == [] then t[0] != LT else StartMatch(w + [t[0]]) == NoMatch
    ensures Parts(k, Gap(w), t) == Parts(k, Free, t)
  {
    hide THINK_OPEN, THINK_CLOSE, StartMatch, OPENERS;
    OtherByte2(t[0]);
    assert [] + [t[0]] == [t[0]];
    NoneInGap(w, t);
  }

  lemma OtherByte2(c: byte)
    ensures c != LT ==> StartMatch([c]) == NoMatch
  {
    if c != LT { OtherByte(c); }
  }

  lemma NoneInGap(w: bytes, t: bytes)
    requires t != [] && !IsBlank(t[0]) && StartMatch(w + [t[0]]) == NoMatch
    ensures OpenerInGap(w, t).None?
  {
    hide StartMatch, OPENERS;
    if w + [t[0]] in OPENERS { OpenerMatches(w + [t[0]]); }
  }

  // ---------------------------------------------------------------- a byte of a possible opener

  /** A state of the display after a byte, and the reader in front of what it holds. */
  ghost predicate Goes(s: Display, k: Reader, buf: bytes, t: Display, q: Reader, rest: bytes) {
    Keeps(s, k, buf, t, q, rest) && Apart(t, rest)
  }

  lemma NotWhole(h: bytes)
    requires !StartMatch(h).Whole?
    ensures h !in OPENERS
  {
    hide OPENERS, StartMatch;
    if h in OPENERS { OpenerMatches(h); }
  }

  /** In the gap a byte that goes on with an opener is held, whatever comes of it. */
  lemma GapHolds(k: Reader, h: bytes, c: byte, rest: bytes)
    requires !k.think && !Dead(k) && !IsBlank(c) && StartMatch(h + [c]) == Prefix
    requires !(THINK_OPEN <= [c] + rest) && !(THINK_CLOSE <= [c] + rest)
    ensures (if h == [] then Events(Parts(k, Gap([]), [c] + rest)) else GapEvents(k, h, [c] + rest)) == GapEvents(k, h + [c], rest)
  {
    hide THINK_OPEN, THINK_CLOSE, StartMatch, Show, Muse, Parts, EventsOf, CallEvents, OPENERS, Dead, OpenerInGap, IsBlank;
    var t := [c] + rest;
    assert t[0] == c && t[1..] == rest;
    NextInGap(h, t);
    if OpenerInGap(h, t).Some? {
      var j := OpenerInGap(h, t).value.1;
      assert t[j..] == rest[j - 1..];
    }
    if h == [] {
      assert [] + [c] == [c];
      FirstHeld(k, c, t);
    } else {
      NextHeldShown(k, h, c, t);
    }
  }

  lemma NextInGap(h: bytes, t: bytes)
    requires t != [] && !IsBlank(t[0]) && StartMatch(h + [t[0]]) == Prefix
    ensures var a, b := OpenerInGap(h, t), OpenerInGap(h + [t[0]], t[1..]);
      a.Some? == b.Some? && (a.Some? ==> a.value.0 == b.value.0 && a.value.1 == b.value.1 + 1)
  {
    hide StartMatch, OPENERS;
    NotWhole(h + [t[0]]);
  }

  lemma FirstHeld(k: Reader, c: byte, t: bytes)
    requires !k.think && !Dead(k) && t != [] && t[0] == c && !IsBlank(c) && StartMatch([c]) == Prefix
    requires !(THINK_OPEN <= t) && !(THINK_CLOSE <= t)
    ensures var g := OpenerInGap([], t);
      Events(Parts(k, Gap([]), t))
      == if g.Some? then CallEvents(k, g.value.0, t[g.value.1..])
         else ShowAll(k, [c]).1 + Events(Parts(ShowAll(k, [c]).0, Gap([c]), t[1..]))
  {
    hide THINK_OPEN, THINK_CLOSE, StartMatch, Show, StartCall, OPENERS, OpenerInGap, IsBlank, Dead, Events;
    assert [] + [c] == [c];
    GapParts(k, t);
    match OpenerInGap([], t) {
      case Some((o, j)) =>
        var (q, ignored, more) := StartCall(k, o);
        SpelledCons(Opener(t[..j], k.think, more), Parts(q, After(q, ignored), t[j..]));
      case None =>
        OneShown(k, c);
        var (q, p) := Show(k, c);
        SpelledCons(p, Parts(q, Gap([c]), t[1..]));
    }
  }

  lemma OneShown(k: Reader, c: byte)
    requires !k.think
    ensures ShowAll(k, [c]) == (Show(k, c).0, EventsOf(Show(k, c).1))
  {
    hide Show, EventsOf;
    assert [c][1..] == [];
    var p := Show(k, c).1;
    assert EventsOf(p) + [] == EventsOf(p);
  }

  lemma GapParts(k: Reader, t: bytes)
    requires !Dead(k) && t != [] && !IsBlank(t[0]) && StartMatch([t[0]]) == Prefix && !(THINK_OPEN <= t) && !(THINK_CLOSE <= t)
    ensures var g := OpenerInGap([], t);
      Parts(k, Gap([]), t)
      == if g.Some? then
           var (q, ignored, more) := StartCall(k, g.value.0);
           [Opener(t[..g.value.1], k.think, more)] + Parts(q, After(q, ignored), t[g.value.1..])
         else
           var (q, p) := Show(k, t[0]);
           [p] + Parts(q, Gap([t[0]]), t[1..])
  {
    hide THINK_OPEN, THINK_CLOSE, StartMatch, Show, StartCall, OPENERS, OpenerInGap, IsBlank, Dead, OpenerHere, Muse;
    assert [] + [t[0]] == [t[0]];
  }

  lemma NextHeldShown(k: Reader, h: bytes, c: byte, t: bytes)
    requires !k.think && !Dead(k) && h != [] && t != [] && t[0] == c && !IsBlank(c) && StartMatch(h + [c]) == Prefix
    requires !(THINK_OPEN <= t) && !(THINK_CLOSE <= t)
    ensures var (q, ev) := ShowAll(k, h); var (r, more) := ShowAll(k, h + [c]);
      ev + Events(Parts(q, Gap(h), t)) == more + Events(Parts(r, Gap(h + [c]), t[1..]))
  {
    hide THINK_OPEN, THINK_CLOSE, StartMatch, Show, Parts, EventsOf, ShowAll, IsBlank, Muse;
    ShowMuses(k, h);
    ShowOne(k, h, c);
    var (q, ev) := ShowAll(k, h);
    var (r, p) := Show(Muse(q, c), c);
    if Dead(q) {
      ShowDead(q, c);
      DeadParts(q, Gap(h), t);
      SpelledCons(Lost(c), Parts(q, Gap(h), t[1..]));
      DeadGap(q, h, t[1..]);
      DeadGap(q, h + [c], t[1..]);
      assert ev + [] == ev;
      assert [] + Events(Parts(q, Gap(h), t[1..])) == Events(Parts(q, Gap(h), t[1..]));
    } else {
      AwakeMuse(q, c);
      HeldParts(q, h, t);
      SpelledCons(p, Parts(r, Gap(h + [c]), t[1..]));
      Regroup(ev, EventsOf(p), Events(Parts(r, Gap(h + [c]), t[1..])));
    }
  }

  lemma ShowDead(q: Reader, c: byte)
    requires Dead(q)
    ensures Show(Muse(q, c), c) == (q, Lost(c)) && EventsOf(Lost(c)) == []
  {
  }

  lemma AwakeMuse(q: Reader, c: byte)
    requires !q.think
    ensures Muse(q, c) == q
  {
  }

  lemma HeldParts(k: Reader, h: bytes, t: bytes)
    requires !Dead(k) && h != [] && t != [] && !IsBlank(t[0]) && StartMatch(h + [t[0]]) == Prefix
    requires !(THINK_OPEN <= t) && !(THINK_CLOSE <= t)
    ensures var (q, p) := Show(k, t[0]); Parts(k, Gap(h), t) == [p] + Parts(q, Gap(h + [t[0]]), t[1..])
  {
    hide THINK_OPEN, THINK_CLOSE, StartMatch, Show, StartCall, OPENERS, OpenerInGap, IsBlank, Dead, OpenerHere, Muse;
  }

  /** One byte more of a possible opener is held. */
  lemma KeepsHold(s: Display, n: Display, k: Reader, c: byte, rest: bytes)
    requires Follows(s, k) && !s.dsmlActive && !Dead(k) && Noted(s, n, k, c) && !(s.postThinkGap && IsBlank(c))
    requires StartMatch(s.startTail + [c]) == Prefix && Apart(s, [c] + rest)
    requires !(THINK_OPEN <= [c] + rest) && !(THINK_CLOSE <= [c] + rest)
    ensures Goes(s, k, [c] + rest, n.(startTail := s.startTail + [c]), k, rest)
  {
    hide *;
    HoldFollows(s, n, k, c);
    HoldRest(s, n, k, c, rest);
    HoldSink(s, n, k, c);
    KeepsIs(s, k, [c] + rest, n.(startTail := s.startTail + [c]), k, rest);
    GoesIs(s, k, [c] + rest, n.(startTail := s.startTail + [c]), k, rest);
  }

  lemma KeepsIs(s: Display, k: Reader, buf: bytes, t: Display, q: Reader, rest: bytes)
    requires Follows(t, q) && s.sink + Rest(s, k, buf) == t.sink + Rest(t, q, rest)
    ensures Keeps(s, k, buf, t, q, rest)
  {
    hide Follows, Rest;
  }

  lemma HoldSink(s: Display, n: Display, k: Reader, c: byte)
    requires Noted(s, n, k, c)
    ensures n.sink == s.sink
  {
    hide Mused;
  }

  lemma HoldFollows(s: Display, n: Display, k: Reader, c: byte)
    requires Follows(s, k) && !s.dsmlActive && !Dead(k) && Noted(s, n, k, c) && StartMatch(s.startTail + [c]) == Prefix
    ensures Follows(n.(startTail := s.startTail + [c]), k)
  {
    hide StartMatch, Consistent, MuseAll;
    SameParser(s, n.(startTail := s.startTail + [c]));
  }

  lemma HoldRest(s: Display, n: Display, k: Reader, c: byte, rest: bytes)
    requires Follows(s, k) && !s.dsmlActive && !Dead(k) && Noted(s, n, k, c) && !(s.postThinkGap && IsBlank(c))
    requires StartMatch(s.startTail + [c]) == Prefix && Apart(s, [c] + rest)
    requires !(THINK_OPEN <= [c] + rest) && !(THINK_CLOSE <= [c] + rest)
    ensures var t := n.(startTail := s.startTail + [c]); Rest(t, k, rest) == Rest(s, k, [c] + rest) && Apart(t, rest)
  {
    hide THINK_OPEN, THINK_CLOSE, StartMatch, Parts, GapEvents, Consistent, Mused, IsBlank;
    var h := s.startTail;
    assert h + [c] + rest == h + ([c] + rest);
    if s.postThinkGap { GapHolds(k, h, c, rest); }
    assert h == [] ==> h + [c] == [c];
  }

  /** The last byte of an opener. */
  lemma KeepsWhole(s: Display, n: Display, k: Reader, c: byte, rest: bytes) returns (q: Reader)
    requires Follows(s, k) && !s.dsmlActive && !Dead(k) && Noted(s, n, k, c) && !(s.postThinkGap && IsBlank(c))
    requires StartMatch(s.startTail + [c]).Whole? && Apart(s, [c] + rest)
    ensures Goes(s, k, [c] + rest, BeginCall(n.(startTail := s.startTail + [c]), StartMatch(s.startTail + [c]).implicitInvoke), q, rest)
  {
    hide THINK_OPEN, THINK_CLOSE, StartMatch, Parts, Consistent, BeginCall, OPENERS, Mused, IsBlank, INVOKE_OPENER, MISSING_BAR_INVOKE;
    var h := s.startTail;
    var o := h + [c];
    MatchShape(o);
    OpenerMatches(o);
    OpenerBytes(o);
    var buf := [c] + rest;
    assert h + buf == o + rest && buf[0] == c && buf[1..] == rest;
    if s.postThinkGap {
      WholeInGap(h, buf);
      GapOpens(k, h, buf, o);
    } else {
      FreeOpens(k, o, rest);
    }
    q := KeepsBegin(s, n.(startTail := o), k, o, buf, rest);
    BeginHoldsNothing(n.(startTail := o), StartMatch(o).implicitInvoke);
  }

  lemma BeginHoldsNothing(s: Display, implicitInvoke: bool)
    ensures BeginCall(s, implicitInvoke).startTail == []
  {
    hide FeedDsml, START, INVOKE_OPENER;
    FeedHoldsNothing(StartDsml(s, s.inThink), INVOKE_OPENER);
  }

  lemma {:induction false} FeedHoldsNothing(s: Display, bs: bytes)
    ensures FeedDsmlBytes(s, bs).startTail == s.startTail
    decreases |bs|
  {
    hide FeedDsml;
    if bs != [] {
      FeedLeavesHeld(s, bs[0]);
      FeedHoldsNothing(FeedDsml(s, bs[0]), bs[1..]);
    }
  }

  lemma FeedLeavesHeld(s: Display, c: byte)
    ensures FeedDsml(s, c).startTail == s.startTail
  {
    hide D.Feed, D.Sound, FinishIgnored, Settle;
    var t := s.(parser := D.Feed(s.parser, [c]));
    SettleLeavesHeld(if s.dsmlIgnored then t else Emit(t, ToolByte(c)));
  }

  lemma SettleLeavesHeld(s: Display)
    ensures Settle(s).startTail == s.startTail
  {
    hide FinishIgnored, IN_THINKING, MALFORMED_IN_THINKING;
    IgnoredLeavesHeld(s, IN_THINKING);
    IgnoredLeavesHeld(s, MALFORMED_IN_THINKING);
  }

  lemma IgnoredLeavesHeld(s: Display, why: bytes)
    ensures FinishIgnored(s, why).startTail == s.startTail
  {
  }

  lemma WholeInGap(h: bytes, t: bytes)
    requires t != [] && !IsBlank(t[0]) && h + [t[0]] in OPENERS
    ensures OpenerInGap(h, t) == Some((h + [t[0]], 1))
  {
    hide StartMatch, OPENERS;
  }

  lemma GapOpens(k: Reader, h: bytes, t: bytes, o: bytes)
    requires h != [] && t != [] && OpenerInGap(h, t) == Some((o, 1))
    ensures GapEvents(k, h, t) == CallEvents(k, o, t[1..])
  {
    hide OpenerInGap, CallEvents;
  }

  lemma FreeOpens(k: Reader, o: bytes, rest: bytes)
    requires o in OPENERS && !Dead(k) && !(THINK_OPEN <= o + rest) && !(THINK_CLOSE <= o + rest)
    ensures Events(Parts(k, Free, o + rest)) == CallEvents(k, o, rest)
  {
    hide THINK_OPEN, THINK_CLOSE, StartCall, OPENERS, OpenerHere, Show, Muse, Events, Dead;
    OpenerBytes(o);
    OpenerIsHere(o, rest);
    var t := o + rest;
    assert t[|o|..] == rest;
    var (q, ignored, more) := StartCall(k, o);
    SpelledCons(Opener(o, k.think, more), Parts(q, After(q, ignored), rest));
  }

  // ---------------------------------------------------------------- held bytes that open nothing

  /** A text cannot go on from the held bytes to an opener. */
  ghost predicate Broken(s: Display, buf: bytes) {
    && (s.startTail != [] ==> buf == [] || StartMatch(s.startTail + [buf[0]]) == NoMatch)
    && (s.postThinkGap && buf != [] ==> !IsBlank(buf[0]))
  }

  /** Held bytes that open nothing are shown in front of what follows. */
  lemma HeldIsShown(s: Display, k: Reader, buf: bytes)
    requires Follows(s, k) && !s.dsmlActive && s.startTail != [] && Broken(s, buf) && Apart(s, buf)
    requires s.postThinkGap ==> buf != [] && !(THINK_OPEN <= buf) && !(THINK_CLOSE <= buf)
    ensures var (q, ev) := ShowAll(k, s.startTail); Rest(s, k, buf) == ev + Events(Parts(q, Free, buf))
  {
    hide THINK_OPEN, THINK_CLOSE, StartMatch, Parts, Consistent, Mused, IsBlank, ShowAll, OpenerInGap;
    var h := s.startTail;
    if s.postThinkGap {
      NoneInGap(h, buf);
      var q := ShowAll(k, h).0;
      if Dead(q) { DeadGap(q, h, buf); } else { GapEnds(q, h, buf); }
    } else {
      HeldIsPlain(h, buf);
      FreeShows(k, h, buf);
    }
  }

  /** The display shows what it held, and a `<` behind it is held in its place. */
  lemma KeepsFlush(s: Display, n: Display, k: Reader, rest: bytes) returns (q: Reader)
    requires Follows(s, k) && !s.dsmlActive && !Dead(k) && s.startTail != [] && Noted(s, n, k, LT) && Broken(s, [LT] + rest)
    requires Apart(s, [LT] + rest) && !(THINK_OPEN <= [LT] + rest) && !(THINK_CLOSE <= [LT] + rest)
    ensures Goes(s, k, [LT] + rest, GiveUp(n.(startTail := s.startTail + [LT])), q, rest)
  {
    hide THINK_OPEN, THINK_CLOSE, StartMatch, Parts, Consistent, IsBlank, ShowAll, FlushBytes, Rest, Muse;
    var h := s.startTail;
    var buf := [LT] + rest;
    HeldIsShown(s, k, buf);
    var m := n.(startTail := h + [LT], postThinkGap := false);
    assert (h + [LT])[..|h + [LT]| - 1] == h && (h + [LT])[|h + [LT]| - 1] == LT;
    if !k.think {
      AwakeMuses(k, h);
      AwakeMuses(k, h + [LT]);
    }
    FlushFollows(m, k, h);
    ShowMuses(k, h);
    if !k.think { AwakeMuse(ShowAll(k, h).0, LT); }
    MuseOne(k, h, LT);
    var u := FlushBytes(m, h);
    q := ShowAll(k, h).0;
    SameParser(s, m);
    FlushKeeps(m, h);
    FlushConsistent(m, h);
    var t := u.(startTail := if Dead(q) then [] else [LT]);
    assert t == GiveUp(n.(startTail := h + [LT]));
    SameParser(u, t);
    HeldLt(t, q, n, rest);
    Regroup(s.sink, ShowAll(k, h).1, Events(Parts(q, Free, buf)));
  }

  lemma FlushConsistent(s: Display, bs: bytes)
    requires Consistent(s) && !s.dsmlActive
    ensures Consistent(FlushBytes(s, bs)) && !FlushBytes(s, bs).dsmlActive
  {
    hide FlushBytes;
    FlushKeeps(s, bs);
  }

  /** What is still to come behind a `<` that is held, or noticed no more. */
  lemma HeldLt(t: Display, q: Reader, n: Display, rest: bytes)
    requires t.parser == q.parser && t.inThink == q.think && t.plainTail == q.plain && t.reported == q.told
    requires |t.plainTail| <= DETECTOR && Consistent(t) && !t.dsmlActive && !t.postThinkGap
    requires t.startTail == (if Dead(q) then [] else [LT]) && (Dead(q) ==> !q.think)
    requires t.dsmlInThink == n.dsmlInThink && t.thinkTail == n.thinkTail
    requires var m := Muse(q, LT); m.ruled == n.dsmlInThink && (!m.ruled ==> m.musing == n.thinkTail)
    requires !(THINK_OPEN <= [LT] + rest) && !(THINK_CLOSE <= [LT] + rest)
    ensures Follows(t, q) && Apart(t, rest) && Rest(t, q, rest) == Events(Parts(q, Free, [LT] + rest))
  {
    hide THINK_OPEN, THINK_CLOSE, StartMatch, Parts, Consistent, EndsInMarker, LastN;
    MatchShape([LT]);
    OneMused(q, LT);
    NoneMused(t, q);
    var buf := [LT] + rest;
    assert buf[0] == LT && buf[1..] == rest && [] + rest == rest;
    if Dead(q) {
      DeadParts(q, Free, buf);
      SpelledCons(Lost(LT), Parts(q, Free, rest));
      assert EventsOf(Lost(LT)) + Events(Parts(q, Free, rest)) == Events(Parts(q, Free, rest));
    }
  }

  /** The display shows all that it held and the byte that broke it. */
  lemma KeepsGivingUp(s: Display, n: Display, k: Reader, c: byte, rest: bytes) returns (q: Reader)
    requires Follows(s, k) && !s.dsmlActive && !Dead(k) && s.startTail != [] && Noted(s, n, k, c) && c != LT
    requires Broken(s, [c] + rest) && Apart(s, [c] + rest)
    ensures Goes(s, k, [c] + rest, GiveUp(n.(startTail := s.startTail + [c])), q, rest)
  {
    hide THINK_OPEN, THINK_CLOSE, StartMatch, Parts, Consistent, IsBlank, ShowAll, FlushBytes, Rest, Muse, Show, EventsOf;
    var h := s.startTail;
    var buf := [c] + rest;
    assert buf[0] == c && buf[1..] == rest;
    OtherStartsNothing(buf);
    HeldIsShown(s, k, buf);
    var tail := h + [c];
    assert tail[|tail| - 1] == c;
    var m := n.(startTail := tail, postThinkGap := false);
    if !k.think { AwakeMuses(k, tail); }
    FlushFollows(m, k, tail);
    ShowMuses(k, tail);
    ShowOne(k, h, c);
    var u := FlushBytes(m, tail);
    q := ShowAll(k, tail).0;
    SameParser(s, m);
    FlushConsistent(m, tail);
    FlushKeeps(m, tail);
    var t := u.(startTail := []);
    assert t == GiveUp(n.(startTail := tail));
    SameParser(u, t);
    NoneMused(t, q);
    BrokenByte(ShowAll(k, h).0, c, buf);
    NothingHeld(t, q, rest);
    var (r, p) := Show(Muse(ShowAll(k, h).0, c), c);
    Regroup(ShowAll(k, h).1, EventsOf(p), Events(Parts(q, Free, rest)));
    Regroup(s.sink, ShowAll(k, tail).1, Events(Parts(q, Free, rest)));
  }

  lemma BrokenByte(k: Reader, c: byte, t: bytes)
    requires t != [] && t[0] == c && NothingStarts(t)
    ensures var (q, p) := Show(Muse(k, c), c); Events(Parts(k, Free, t)) == EventsOf(p) + Events(Parts(q, Free, t[1..]))
  {
    hide THINK_OPEN, THINK_CLOSE, Parts, Show, Muse, EventsOf, OpenerHere;
    FreeByte(k, t);
    var (q, p) := Show(Muse(k, c), c);
    SpelledCons(p, Parts(q, Free, t[1..]));
  }

  lemma NothingHeld(t: Display, q: Reader, rest: bytes)
    requires t.parser == q.parser && t.inThink == q.think && t.plainTail == q.plain && t.reported == q.told
    requires |t.plainTail| <= DETECTOR && Consistent(t) && !t.dsmlActive && !t.postThinkGap && t.startTail == [] && Mused(t, q, [])
    ensures Follows(t, q) && Apart(t, rest) && Rest(t, q, rest) == Events(Parts(q, Free, rest))
  {
    hide Parts, Consistent, Mused;
    assert [] + rest == rest;
  }

  // ---------------------------------------------------------------- every byte

  lemma KeepsOpener(s: Display, n: Display, k: Reader, c: byte, rest: bytes) returns (q: Reader)
    requires Follows(s, k) && !s.dsmlActive && !Dead(k) && Noted(s, n, k, c) && !(s.postThinkGap && IsBlank(c))
    requires (s.startTail != [] || c == LT) && Apart(s, [c] + rest)
    requires !(THINK_OPEN <= [c] + rest) && !(THINK_CLOSE <= [c] + rest)
    ensures Goes(s, k, [c] + rest, OpenerByte(n, c), q, rest)
  {
    hide THINK_OPEN, THINK_CLOSE, StartMatch, Keeps, Apart, Mused, Consistent, BeginCall, GiveUp, IsBlank;
    MatchShape(s.startTail);
    MatchShape([LT]);
    var tail := s.startTail + [c];
    var buf := [c] + rest;
    assert buf[0] == c;
    match StartMatch(tail) {
      case Prefix =>
        q := k;
        KeepsHold(s, n, k, c, rest);
      case Whole(_) =>
        q := KeepsWhole(s, n, k, c, rest);
      case NoMatch =>
        assert s.startTail == [] ==> tail == [LT];
        if c == LT { q := KeepsFlush(s, n, k, rest); } else { q := KeepsGivingUp(s, n, k, c, rest); }
    }
  }

  /** Every byte leaves the display where a reader of the rest stands. */
  lemma KeepsByte(s: Display, k: Reader, c: byte, rest: bytes) returns (q: Reader)
    requires Follows(s, k) && Apart(s, [c] + rest)
    requires s.dsmlActive || (!(THINK_OPEN <= [c] + rest) && !(THINK_CLOSE <= [c] + rest))
    ensures Goes(s, k, [c] + rest, StreamByte(s, c), q, rest)
  {
    hide *;
    if s.dsmlActive {
      q := KeepsCall(s, k, c, rest);
      CallHoldsNothing(s, k, c, rest);
    } else {
      DeadIs(s, k);
      if Dead(k) {
        q := k;
        KeepsDead(s, k, c, rest);
        DeadByte(s, k, c, rest);
      } else {
        NoteFollows(s, k, c);
        NormalByteIs(s, k, c);
        if s.postThinkGap && IsBlank(c) {
          q := k;
          KeepsBlank(s, k, c, rest);
          GapIsApart(s, rest);
        } else if s.startTail != [] || c == LT {
          q := KeepsOpener(s, NoteThinking(s, c), k, c, rest);
        } else {
          q := KeepsShown(s, k, c, rest);
          ShownHoldsNothing(s, k, c, rest);
        }
      }
    }
    GoesIs(s, k, [c] + rest, StreamByte(s, c), q, rest);
  }

  lemma GoesIs(s: Display, k: Reader, buf: bytes, t: Display, q: Reader, rest: bytes)
    ensures Goes(s, k, buf, t, q, rest) <==> Keeps(s, k, buf, t, q, rest) && Apart(t, rest)
  {
    hide Keeps, Apart;
  }

  lemma CallHoldsNothing(s: Display, k: Reader, c: byte, rest: bytes)
    requires Follows(s, k) && s.dsmlActive
    ensures Apart(StreamByte(s, c), rest)
  {
    hide D.Feed, THINK_OPEN, THINK_CLOSE, Mused, StartMatch, D.Sound;
  }

  lemma DeadIs(s: Display, k: Reader)
    requires Follows(s, k)
    ensures s.parser == k.parser && (Dead(k) ==> s.startTail == [])
  {
    hide Mused, StartMatch, Consistent;
  }

  lemma DeadByte(s: Display, k: Reader, c: byte, rest: bytes)
    requires Follows(s, k) && !s.dsmlActive && Dead(k)
    ensures StreamByte(s, c) == s && Apart(s, rest)
  {
    hide THINK_OPEN, THINK_CLOSE, Mused, StartMatch, NoteThinking, OpenerByte, NotePlain, Consistent;
  }

  /** The cases of a byte outside calls. */
  lemma NormalByteIs(s: Display, k: Reader, c: byte)
    requires Follows(s, k) && !s.dsmlActive && !Dead(k)
    ensures var n := NoteThinking(s, c);
      && n.postThinkGap == s.postThinkGap && n.startTail == s.startTail && (s.postThinkGap ==> n == s)
      && StreamByte(s, c) ==
         if s.postThinkGap && IsBlank(c) then n
         else if s.startTail != [] || c == LT then OpenerByte(n, c)
         else NotePlain(Emit(n.(postThinkGap := false), Char(c)), c)
  {
    hide Mused, StartMatch, OpenerByte, NotePlain, EndsInMarker, Slide, Consistent, IsBlank;
  }

  lemma GapIsApart(s: Display, rest: bytes)
    requires s.postThinkGap
    ensures Apart(s, rest)
  {
    hide THINK_OPEN, THINK_CLOSE;
  }

  lemma ShownHoldsNothing(s: Display, k: Reader, c: byte, rest: bytes)
    requires s.startTail == []
    ensures Apart(NotePlain(Emit(NoteThinking(s, c).(postThinkGap := false), Char(c)), c), rest)
  {
    hide EndsInMarker, THINK_OPEN, THINK_CLOSE, Slide, D.Sound;
  }

  // ---------------------------------------------------------------- tags and the end

  lemma LtBreaks(h: bytes)
    requires h != [] && StartMatch(h) == Prefix
    ensures StartMatch(h + [LT]) == NoMatch
  {
    hide StartMatch;
    MatchShape(h + [LT]);
    OpenerLtOnly(h + [LT]);
    assert (h + [LT])[|h|] == LT;
  }

  lemma OpenerLtOnly(t: bytes)
    ensures StartMatch(t).Whole? ==> forall k :: 0 < k < |t| ==> t[k] != LT
  {
    hide StartMatch;
    MatchShape(t);
  }

  /** Held bytes at a point where they open nothing: at a tag, or at the end. */
  lemma HeldEnds(s: Display, k: Reader, buf: bytes)
    requires Follows(s, k) && !s.dsmlActive && s.startTail != [] && Apart(s, buf) && (buf == [] || buf[0] == LT)
    ensures var (q, ev) := ShowAll(k, s.startTail);
      Rest(s, k, buf) == ev + Events(Parts(q, if s.postThinkGap then Gap(s.startTail) else Free, buf))
  {
    hide THINK_OPEN, THINK_CLOSE, StartMatch, Parts, Consistent, Mused, ShowAll, OpenerInGap;
    var h := s.startTail;
    LtBreaks(h);
    if s.postThinkGap {
      NothingInGap(h, buf);
    } else {
      HeldIsPlain(h, buf);
      FreeShows(k, h, buf);
    }
  }

  lemma NothingInGap(h: bytes, buf: bytes)
    requires buf == [] || (!IsBlank(buf[0]) && StartMatch(h + [buf[0]]) == NoMatch)
    ensures OpenerInGap(h, buf).None?
  {
    hide StartMatch, OPENERS;
    if buf != [] { NoneInGap(h, buf); }
  }

  /** What is still to come, read behind the held bytes. */
  lemma RestShown(s: Display, k: Reader, buf: bytes)
    requires Follows(s, k) && !s.dsmlActive && Apart(s, buf) && (buf == [] || buf[0] == LT)
    ensures var (q, ev) := ShowAll(k, s.startTail);
      Rest(s, k, buf) == ev + Events(Parts(q, if s.postThinkGap then Gap(s.startTail) else Free, buf))
  {
    hide Parts, Follows, Apart, GapEvents;
    if s.startTail == [] {
      assert [] + buf == buf;
      var e := Events(Parts(k, if s.postThinkGap then Gap([]) else Free, buf));
      assert [] + e == e;
    } else {
      HeldEnds(s, k, buf);
    }
  }

  /** The display shows what it holds. */
  lemma FlushTailFollows(s: Display, k: Reader)
    requires Follows(s, k) && !s.dsmlActive
    ensures var t := FlushStartTail(s); var (q, ev) := ShowAll(k, s.startTail);
      && t.sink == s.sink + ev && Alike(t, q) && Consistent(t) && t.startTail == [] && !t.dsmlActive && t.dsmlIgnored == s.dsmlIgnored
      && (s.startTail == [] ==> t == s) && (s.startTail != [] ==> !t.postThinkGap)
  {
    hide StartMatch, Consistent, ShowAll, FlushBytes, MuseAll;
    var h := s.startTail;
    ShowMuses(k, h);
    if h == [] {
      NothingShown(k);
      NoneMused(s, k);
      assert s.sink + [] == s.sink;
    } else {
      var m := s.(postThinkGap := false);
      if !k.think { AwakeMuses(k, h); }
      FlushFollows(m, k, h);
      SameParser(s, m);
      FlushConsistent(m, h);
      FlushKeeps(m, h);
      SameParser(FlushBytes(m, h), FlushBytes(m, h).(startTail := []));
    }
  }

  lemma NothingShown(k: Reader)
    ensures ShowAll(k, []) == (k, [])
  {
  }

  /** A think tag shows what is held and is shown itself. */
  lemma KeepsTag(s: Display, k: Reader, buf: bytes) returns (q: Reader)
    requires Follows(s, k) && !s.dsmlActive && Apart(s, buf) && (THINK_OPEN <= buf || THINK_CLOSE <= buf)
    ensures if THINK_OPEN <= buf then Goes(s, k, buf, OpenThink(s), q, buf[|THINK_OPEN|..])
            else Goes(s, k, buf, CloseThink(s), q, buf[|THINK_CLOSE|..])
  {
    hide THINK_OPEN, THINK_CLOSE, StartMatch, Parts, Consistent, ShowAll, FlushStartTail, Follows, Rest, Apart, Goes, Events;
    TagLengths();
    LtOfTag(buf);
    RestShown(s, k, buf);
    FlushTailFollows(s, k);
    var f := FlushStartTail(s);
    var (r, ev) := ShowAll(k, s.startTail);
    TagParts(r, if s.postThinkGap then Gap(s.startTail) else Free, buf);
    if THINK_OPEN <= buf {
      q := r.(think := true);
      var rest := buf[|THINK_OPEN|..];
      TagFollows(f, r, rest);
      SpelledCons(Opened, Parts(q, Free, rest));
      Regroup4(s.sink, ev, [ThinkOpened], Events(Parts(q, Free, rest)));
      GoesIs(s, k, buf, OpenThink(s), q, rest);
    } else {
      q := r.(think := false);
      var rest := buf[|THINK_CLOSE|..];
      TagFollows(f, r, rest);
      SpelledCons(Closed, Parts(q, Gap([]), rest));
      Regroup4(s.sink, ev, [ThinkClosed], Events(Parts(q, Gap([]), rest)));
      GoesIs(s, k, buf, CloseThink(s), q, rest);
    }
  }

  lemma Regroup4(a: seq<Event>, b: seq<Event>, c: seq<Event>, d: seq<Event>)
    ensures a + b + c + d == a + (b + (c + d))
  {
  }

  lemma LtOfTag(buf: bytes)
    requires THINK_OPEN <= buf || THINK_CLOSE <= buf
    ensures buf != [] && buf[0] == LT && (THINK_OPEN <= buf ==> |THINK_OPEN| <= |buf|) && (THINK_CLOSE <= buf ==> |THINK_CLOSE| <= |buf|)
  {
  }

  lemma TagFollows(f: Display, r: Reader, rest: bytes)
    requires Alike(f, r) && Consistent(f) && f.startTail == [] && !f.dsmlActive
    ensures var t := Emit(f.(postThinkGap := false, inThink := true), ThinkOpened); var q := r.(think := true);
      Follows(t, q) && Apart(t, rest) && Rest(t, q, rest) == Events(Parts(q, Free, rest)) && t.sink == f.sink + [ThinkOpened]
    ensures var t := Emit(f.(postThinkGap := true, inThink := false), ThinkClosed); var q := r.(think := false);
      Follows(t, q) && Apart(t, rest) && Rest(t, q, rest) == Events(Parts(q, Gap([]), rest)) && t.sink == f.sink + [ThinkClosed]
  {
    hide THINK_OPEN, THINK_CLOSE, Parts, StartMatch, Consistent, Mused;
    var t, u := Emit(f.(postThinkGap := false, inThink := true), ThinkOpened), Emit(f.(postThinkGap := true, inThink := false), ThinkClosed);
    SameParser(f, t);
    SameParser(f, u);
    NoneMused(t, r.(think := true));
    NoneMused(u, r.(think := false));
    assert [] + rest == rest;
  }

  /** At the end the display shows what it holds and tells what is left to tell. */
  lemma EndFollows(s: Display, k: Reader)
    requires Follows(s, k) && Apart(s, [])
    ensures Finish(s).sink == s.sink + Rest(s, k, [])
  {
    hide StartMatch, Parts, Mused, Apart, IN_THINKING, FlushStartTail, ShowAll, LastEvents, Rest, Consistent;
    if s.dsmlActive {
      NoParts(k, Call(s.dsmlIgnored));
      CallEnds(s, k);
    } else {
      RestShown(s, k, []);
      FlushTailFollows(s, k);
      var (q, ev) := ShowAll(k, s.startTail);
      var mode := if s.postThinkGap then Gap(s.startTail) else Free;
      NoParts(q, mode);
      SpelledNothing(LastEvents(q, mode));
      TextEnds(FlushStartTail(s), q, mode);
      assert Finish(s).sink == FlushStartTail(s).sink + LastEvents(q, mode) by { FinishIs(s); }
      Regroup(s.sink, ev, LastEvents(q, mode));
    }
  }

  /** The end of a text that has shown what it held. */
  function Concluded(f: Display): Display {
    var t := f.(postThinkGap := false);
    if t.dsmlInThink && !t.reported then FinishIgnored(t, IN_THINKING) else t
  }

  lemma FinishIs(s: Display)
    requires !s.dsmlActive && !FlushStartTail(s).dsmlActive
    ensures Finish(s) == Concluded(FlushStartTail(s))
  {
    hide FlushStartTail, FinishIgnored, IN_THINKING;
  }

  lemma TextEnds(f: Display, q: Reader, mode: Mode)
    requires Alike(f, q) && !mode.Call?
    ensures Concluded(f).sink == f.sink + LastEvents(q, mode)
  {
    hide IN_THINKING;
    assert f.sink + ([] + []) == f.sink;
    assert f.sink + ([] + [CallIgnored(IN_THINKING)]) == f.sink + [CallIgnored(IN_THINKING)];
  }

  lemma CallEnds(s: Display, k: Reader)
    requires Follows(s, k) && s.dsmlActive
    ensures Finish(s).sink == s.sink + Rest(s, k, [])
  {
    hide StartMatch, IN_THINKING, Consistent;
    FollowsAlike(s, k);
    NoParts(k, Call(s.dsmlIgnored));
    var last := LastEvents(k, Call(s.dsmlIgnored));
    SpelledNothing(last);
    assert s.sink + [CallIgnored(IN_THINKING)] == s.sink + ([CallIgnored(IN_THINKING)] + []);
    assert s.sink + [ToolInterrupted] == s.sink + ([ToolInterrupted] + []);
    assert s.sink + [ToolInterrupted] + [CallIgnored(IN_THINKING)] == s.sink + ([ToolInterrupted] + [CallIgnored(IN_THINKING)]);
  }

  // ---------------------------------------------------------------- what is shown

  /** From any state on, the display sends exactly the events of the reading. */
  lemma {:induction false} DriveShows(s: Display, k: Reader, buf: bytes)
    requires Follows(s, k) && Apart(s, buf)
    ensures Finish(Drive(DISPLAY_MACHINE, s, buf, true).0).sink == s.sink + Rest(s, k, buf)
    decreases |buf|
  {
    hide *;
    TagLengths();
    DriveStep(s, buf, true);
    if buf == [] {
      EndFollows(s, k);
    } else if !s.dsmlActive && (THINK_OPEN <= buf || THINK_CLOSE <= buf) {
      var q := KeepsTag(s, k, buf);
      if THINK_OPEN <= buf {
        DriveOnwards(s, k, buf, OpenThink(s), q, buf[|THINK_OPEN|..]);
      } else {
        DriveOnwards(s, k, buf, CloseThink(s), q, buf[|THINK_CLOSE|..]);
      }
    } else {
      var c, rest := buf[0], buf[1..];
      assert buf == [c] + rest;
      var q := KeepsByte(s, k, c, rest);
      DriveOnwards(s, k, buf, StreamByte(s, c), q, rest);
    }
  }

  lemma {:induction false} DriveOnwards(s: Display, k: Reader, buf: bytes, t: Display, q: Reader, rest: bytes)
    requires Goes(s, k, buf, t, q, rest) && |rest| < |buf|
    ensures Finish(Drive(DISPLAY_MACHINE, t, rest, true).0).sink == s.sink + Rest(s, k, buf)
    decreases |buf|, 0
  {
    hide Follows, Rest, Apart, Drive, DISPLAY_MACHINE, Finish;
    DriveShows(t, q, rest);
  }

  /** A reader at the start of an answer. */
  function FirstLook(thinking: bool): Reader {
    Look(D.INIT, thinking, [], [], false, false)
  }

  /**
   * What the display shows, exactly: however an answer is cut into calls, the terminal gets
   * the events of the parts of its text, in order, and every byte of the text is in one of
   * these parts.
   */
  lemma DisplayShowsText(thinking: bool, chunks: seq<bytes>, last: bytes)
    ensures var text := Concat(chunks) + last; var parts := Parts(FirstLook(thinking), Free, text);
      var (t, held) := StreamChunks(NEW.(inThink := thinking), [], chunks);
      StreamText(t, held, last, true).0.sink == Events(parts) && Spelled(parts) == text
  {
    hide Parts, Events, Drive, DISPLAY_MACHINE, StreamChunks, Finish, Rest, Follows, Apart, Spelled;
    var s := NEW.(inThink := thinking);
    var text := Concat(chunks) + last;
    DisplaySplitInvariance(s, [], chunks, last);
    assert [] + text == text;
    NewFollows(thinking, text);
    DriveShows(s, FirstLook(thinking), text);
    PartsSpell(FirstLook(thinking), Free, text);
    var e := Events(Parts(FirstLook(thinking), Free, text));
    assert [] + e == e;
  }

  lemma NewFollows(thinking: bool, text: bytes)
    ensures var s := NEW.(inThink := thinking); var k := FirstLook(thinking);
      && s.sink == [] && Follows(s, k) && Apart(s, text) && Rest(s, k, text) == Events(Parts(k, Free, text))
  {
    hide Parts, StartMatch, THINK_OPEN, THINK_CLOSE;
    assert [] + text == text;
  }

  // ---------------------------------------------------------------- an ordinary answer

  function Chars(t: bytes): seq<Event> {
    seq(|t|, i requires 0 <= i < |t| => Char(t[i]))
  }

  function ToolBytes(t: bytes): seq<Event> {
    seq(|t|, i requires 0 <= i < |t| => ToolByte(t[i]))
  }

  /** Text without tags and markers in front of a tag, a call or nothing. */
  lemma FreeIsPlain(t: bytes, rest: bytes)
    requires TagFree(t) && MarkerFree(t) && (rest == [] || rest[0] == LT)
    ensures Plainly(t, rest)
  {
    hide FindSub, MarkerFree, THINK_OPEN, THINK_CLOSE, START, MISSING_BAR_START, INVOKE_OPENER, MISSING_BAR_INVOKE;
    forall i | 0 <= i < |t| ensures NothingStarts((t + rest)[i..]) {
      assert (t + rest)[i..] == t[i..] + rest;
      NoTagAt(t, i, rest);
      NoOpenerAt(t, i, rest, START);
      NoOpenerAt(t, i, rest, MISSING_BAR_START);
      NoOpenerAt(t, i, rest, INVOKE_OPENER);
      NoOpenerAt(t, i, rest, MISSING_BAR_INVOKE);
    }
  }

  lemma NoTagAt(t: bytes, i: nat, rest: bytes)
    requires TagFree(t) && i < |t| && (rest == [] || rest[0] == LT)
    ensures !(THINK_OPEN <= t[i..] + rest) && !(THINK_CLOSE <= t[i..] + rest)
  {
    hide FindSub, THINK_OPEN, THINK_CLOSE;
    FindSubNone(t, THINK_OPEN);
    FindSubNone(t, THINK_CLOSE);
    TagIs(THINK_OPEN);
    TagIs(THINK_CLOSE);
    var u := t[i..] + rest;
    if rest == [] {
      assert u == t[i..];
    } else {
      TagStaysOut(THINK_OPEN, t[i..], rest, u);
      TagStaysOut(THINK_CLOSE, t[i..], rest, u);
    }
  }

  lemma NoOpenerAt(t: bytes, i: nat, rest: bytes, o: bytes)
    requires MarkerFree(t) && i < |t| && (rest == [] || rest[0] == LT) && o in OPENERS
    ensures !(o <= t[i..] + rest)
  {
    hide FindSub, MarkerFree, OPENERS;
    var u := t[i..] + rest;
    OpenerBytes(o);
    OpenerInside(t, i, o);
    if rest == [] {
      assert u == t[i..];
    } else {
      TagStaysOut(o, t[i..], rest, u);
    }
  }

  /** A text in which an opener stands holds a marker. */
  lemma OpenerInside(t: bytes, i: nat, o: bytes)
    requires i < |t| && o in OPENERS
    ensures o <= t[i..] ==> !MarkerFree(t)
  {
    hide FindSub, MarkerFree, OPENERS;
    if o <= t[i..] {
      OpenerIsMarked(t[..i], o);
      var a, b := t[..i] + o, t[i..][|o|..];
      assert t == a + b;
      if MarkerFree(a + b) { FreePrefix(a, b); }
    }
  }

  /** Thinking without markers is shown byte by byte, and nothing is ruled out. */
  lemma {:induction false} ThinkingShown(k: Reader, seen: bytes, th: bytes)
    requires k.think && !Dead(k) && !k.ruled && k.musing == LastN(seen, DETECTOR) && MarkerFree(seen + th)
    ensures ShowAll(k, th) == (k.(musing := LastN(seen + th, DETECTOR)), Chars(th))
    decreases |th|
  {
    hide FindSub, MarkerFree, EndsInMarker, LastN;
    if th == [] {
      assert seen + th == seen;
    } else {
      var next := seen + [th[0]];
      assert seen + th == next + th[1..];
      FreePrefix(next, th[1..]);
      EndIsQuiet(next);
      LastOfNext(seen, th[0]);
      ThinkingShown(k.(musing := LastN(next, DETECTOR)), next, th[1..]);
      assert Chars(th) == [Char(th[0])] + Chars(th[1..]);
    }
  }

  lemma LastOfNext(seen: bytes, c: byte)
    ensures LastN(LastN(seen, DETECTOR) + [c], DETECTOR) == LastN(seen + [c], DETECTOR)
  {
  }

  /** Prose without markers is shown byte by byte, and nothing is reported. */
  lemma {:induction false} ProseShown(k: Reader, seen: bytes, p: bytes)
    requires !k.think && !Dead(k) && !k.ruled && k.plain == LastN(seen, DETECTOR) && MarkerFree(seen + p)
    ensures ShowAll(k, p) == (k.(plain := LastN(seen + p, DETECTOR)), Chars(p))
    decreases |p|
  {
    hide FindSub, MarkerFree, EndsInMarker, LastN;
    if p == [] {
      assert seen + p == seen;
    } else {
      var next := seen + [p[0]];
      assert seen + p == next + p[1..];
      FreePrefix(next, p[1..]);
      EndIsQuiet(next);
      LastOfNext(seen, p[0]);
      ProseShown(k.(plain := LastN(next, DETECTOR)), next, p[1..]);
      assert Chars(p) == [Char(p[0])] + Chars(p[1..]);
    }
  }

  // ---------------------------------------------------------------- printed calls

  /** The bytes of a printed document behind its opener. */
  lemma {:induction false} CallShown(k: Reader, v: bytes, u: bytes, d: R.Document)
    requires Writable(d) && START + v + u == R.Print(d) && u != []
    requires P.Active(k.parser.core) && D.Tracks(START + v, k.parser) && !k.ruled
    ensures Events(Parts(k, Call(false), u)) == ToolBytes(u) + [ToolDone]
    decreases |u|
  {
    hide START, R.Print, R.WellSpaced, R.Printable, P.Parse, D.Tracks, D.Feed, Parts, Take, Writable, ToolBytes, Events, After, P.Active;
    var c, rest := u[0], u[1..];
    assert u == [c] + rest && START + v + [c] + rest == R.Print(d) && START + (v + [c]) == START + v + [c];
    CallParts(k, false, u);
    CallTakes(k, v, c, rest, d);
    var (q, still, verdict) := Take(k, false, c);
    SpelledCons(CallByte(c, false, verdict), Parts(q, After(q, still), rest));
    ToolBytesCons(c, rest);
    if rest == [] {
      CallOver(q);
    } else {
      CallShown(q, v + [c], rest, d);
    }
    assert [ToolByte(c)] + (if rest == [] then [ToolDone] else []) + (if rest == [] then [] else ToolBytes(rest) + [ToolDone])
        == [ToolByte(c)] + ToolBytes(rest) + [ToolDone];
  }

  lemma ToolBytesCons(c: byte, t: bytes)
    ensures ToolBytes([c] + t) == [ToolByte(c)] + ToolBytes(t) && ToolBytes([]) == []
  {
  }

  /** Behind finished calls nothing is left to tell. */
  lemma CallOver(q: Reader)
    requires !q.ruled
    ensures Events(Parts(q, Free, [])) == []
  {
    hide Parts;
    NoParts(q, Free);
    SpelledNothing(LastEvents(q, Free));
  }

  lemma CallTakes(k: Reader, v: bytes, c: byte, rest: bytes, d: R.Document)
    requires Writable(d) && START + v + [c] + rest == R.Print(d)
    requires P.Active(k.parser.core) && D.Tracks(START + v, k.parser) && !k.ruled
    ensures var (q, still, verdict) := Take(k, false, c);
      && !still && !q.ruled
      && (rest == [] ==> After(q, still) == Free && verdict == [ToolDone])
      && (rest != [] ==> After(q, still) == Call(false) && verdict == [] && P.Active(q.parser.core) && D.Tracks(START + (v + [c]), q.parser))
  {
    hide START, R.Print, P.Parse, FindSub, R.Calls, D.FeedByte, D.Batch, D.ClosePrefix, R.WellSpaced, R.Printable;
    var w := START + v + [c];
    assert w == START + (v + [c]);
    StanzaParses(d);
    D.FeedBytesTracks(START + v, k.parser, [c]);
    assert w[0..] == w && START <= w;
    FindSubExact(w, START, 0);
    if rest == [] {
      assert w == R.Print(d);
    } else {
      assert |w| < |R.Print(d)|;
      PartIsActive(d, w);
    }
  }

  /** A reader who has no call behind him, and has shown `seen` outside thinking. */
  ghost predicate Ready(k: Reader, seen: bytes) {
    k.parser == D.INIT && !k.think && !k.ruled && k.plain == LastN(seen, DETECTOR)
  }

  lemma CallsShown(k: Reader, seen: bytes, d: R.Document)
    requires Writable(d) && Ready(k, seen)
    ensures CallEvents(k, START, R.Print(d)[|START|..]) == [ToolStarted] + ToolBytes(R.Print(d)[|START|..]) + [ToolDone]
  {
    hide START, INVOKE_OPENER, MISSING_BAR_INVOKE, R.Print, R.WellSpaced, R.Printable, Parts, FindSub, P.Step, LastN;
    StanzaParses(d);
    var v := R.Print(d)[|START|..];
    assert R.Print(d) == START + [] + v;
    StartIsNoInvoke();
    var q := Starts(k);
    FirstTracks(k);
    CallShown(q, [], v, d);
    assert [ToolStarted] + [] == [ToolStarted];
    assert [ToolStarted] + (ToolBytes(v) + [ToolDone]) == [ToolStarted] + ToolBytes(v) + [ToolDone];
  }

  lemma StartIsNoInvoke()
    ensures START != INVOKE_OPENER && START != MISSING_BAR_INVOKE && START in OPENERS
  {
    OpenerLengths();
  }

  lemma FirstTracks(k: Reader)
    requires k.parser == D.INIT && !k.think && !k.ruled
    ensures var q := Starts(k); P.Active(q.parser.core) && D.Tracks(START + [], q.parser) && !q.ruled && q.think == k.think
  {
    hide START, FindSub, P.Step;
    assert START + [] == START && START[0..] == START && START <= START;
    FindSubExact(START, START, 0);
    D.ParseNothing(START, D.BEGIN);
    assert [] + START == START;
  }

  /** Prose and then printed calls. */
  lemma FreeProseShown(k: Reader, seen: bytes, p: bytes, d: R.Document)
    requires Writable(d) && Ready(k, seen) && TagFree(p) && MarkerFree(seen + p)
    ensures Events(Parts(k, Free, p + R.Print(d)))
         == Chars(p) + ([ToolStarted] + ToolBytes(R.Print(d)[|START|..]) + [ToolDone])
  {
    hide FindSub, MarkerFree, TagFree, START, R.Print, R.WellSpaced, R.Printable, Parts, LastN, CallEvents, OPENERS, THINK_OPEN, THINK_CLOSE;
    PrintBegins(d);
    StanzaParses(d);
    FreePart(seen, p);
    FreeIsPlain(p, R.Print(d));
    FreeShows(k, p, R.Print(d));
    ProseShown(k, seen, p);
    var q := ShowAll(k, p).0;
    CallsShown(q, seen + p, d);
    StartIsNoInvoke();
    var v := R.Print(d)[|START|..];
    assert R.Print(d) == START + v;
    StartIsNoTag(v);
    FreeOpens(q, START, v);
  }

  lemma StartIsNoTag(rest: bytes)
    ensures !(THINK_OPEN <= START + rest) && !(THINK_CLOSE <= START + rest)
  {
    StartBytes();
    assert (START + rest)[1] == START[1];
  }

  /** The end of a text without markers has none. */
  lemma FreePart(a: bytes, b: bytes)
    ensures MarkerFree(a + b) ==> MarkerFree(b)
  {
    hide FindSub, MARKERS;
    if !MarkerFree(b) {
      var m :| m in MARKERS && FindSub(b, m).Some?;
      var k := FindSub(b, m).value;
      FindSubExact(b, m, k);
      var x, y := b[..k], b[k..][|m|..];
      assert b == x + m + y;
      assert a + b == a + x + m + y;
      HoldsMarker(a + x, m, y);
    }
  }

  // ---------------------------------------------------------------- prose behind a closing tag

  /** The prose behind a closing tag begins no opener that the calls behind it complete. */
  lemma {:induction false} ProseOpensNothing(w: bytes, p: bytes, rest: bytes)
    requires MarkerFree(w + Kept(w, p)) && (w != [] || (p != [] && !IsBlank(p[0]))) && (w == [] || StartMatch(w) == Prefix)
    requires rest != [] && rest[0] == LT
    ensures OpenerInGap(w, p + rest).None?
    decreases |p|
  {
    hide StartMatch, OPENERS, MarkerFree, FindSub;
    var t := p + rest;
    if p == [] {
      assert t == rest;
      LtBreaks(w);
      NoneInGap(w, t);
    } else {
      var next := w + [p[0]];
      assert t[0] == p[0] && t[1..] == p[1..] + rest;
      if IsBlank(p[0]) {
        ProseOpensNothing(w, p[1..], rest);
      } else if StartMatch(next) == Prefix {
        NextInGap(w, t);
        assert w + Kept(w, p) == next + Kept(next, p[1..]);
        ProseOpensNothing(next, p[1..], rest);
      } else {
        assert w + p == next + p[1..];
        FreePrefix(next, p[1..]);
        NotOpened(next);
      }
    }
  }

  lemma NotOpened(next: bytes)
    requires MarkerFree(next)
    ensures next !in OPENERS
  {
    hide OPENERS, MarkerFree;
    assert [] + next == next;
    if next in OPENERS { OpenerIsMarked([], next); }
  }

  /** In the gap the opener of the calls is found at once. */
  lemma {:induction false} StartInGap(n: nat, v: bytes)
    requires n < |START|
    ensures OpenerInGap(START[..n], START[n..] + v) == Some((START, |START| - n))
    decreases |START| - n
  {
    hide START, OPENERS, StartMatch;
    var t := START[n..] + v;
    StartIsNoInvoke();
    OpenerBytes(START);
    OpenerStarts(START, n + 1);
    assert START[..n] + [t[0]] == START[..n + 1] && t[1..] == START[n + 1..] + v;
    if n + 1 == |START| {
      assert START[..n + 1] == START;
      WholeInGap(START[..n], t);
    } else {
      MatchShape(START[..n + 1]);
      NextInGap(START[..n], t);
      StartInGap(n + 1, v);
    }
  }

  /** In the gap the calls may begin at once. */
  lemma GapStarts(k: Reader, w: bytes, v: bytes)
    requires !k.think && !Dead(k) && (w == [] || StartMatch(w) == Prefix)
    ensures Events(Parts(k, Gap(w), START + v)) == CallEvents(k, START, v)
  {
    hide START, StartMatch, OPENERS, THINK_OPEN, THINK_CLOSE, Parts, StartCall, OpenerInGap, Dead, Events;
    StartIsNoInvoke();
    StartIsNoTag(v);
    StartBytes();
    OpenerBytes(START);
    var t := START + v;
    if w == [] {
      StartInGap(0, v);
      assert START[..0] == [] && START[0..] + v == t && t[|START|..] == v;
      MatchShape([t[0]]);
      assert t[0] == LT;
      GapParts(k, t);
      var (q, ignored, more) := StartCall(k, START);
      SpelledCons(Opener(t[..|START|], k.think, more), Parts(q, After(q, ignored), v));
    } else {
      LtBreaks(w);
      GapEnds(k, w, t);
      FreeOpens(k, START, v);
    }
  }

  /** The events of printed calls. */
  function CallsTold(d: R.Document): seq<Event>
    requires START <= R.Print(d)
  {
    [ToolStarted] + ToolBytes(R.Print(d)[|START|..]) + [ToolDone]
  }

  /** The last bytes read are the bytes that may still begin an opener. */
  ghost predicate Tries(seen: bytes, w: bytes) {
    |w| <= |seen| && seen[|seen| - |w|..] == w && (w == [] || StartMatch(w) == Prefix)
  }

  lemma ReadyIsAwake(k: Reader, seen: bytes)
    requires Ready(k, seen)
    ensures !Dead(k) && !k.think
  {
    hide LastN;
  }

  /** A byte that completes no marker is shown. */
  lemma ShowQuiet(k: Reader, seen: bytes, c: byte)
    requires Ready(k, seen) && MarkerFree(seen + [c])
    ensures var (q, p) := Show(k, c); p == Shown(c) && Ready(q, seen + [c])
  {
    hide MarkerFree, LastN, EndsInMarker;
    EndIsQuiet(seen + [c]);
    LastOfNext(seen, c);
  }

  lemma HeldPart(k: Reader, w: bytes, t: bytes)
    requires !Dead(k) && t != [] && !(THINK_OPEN <= t) && !(THINK_CLOSE <= t) && !IsBlank(t[0])
    requires StartMatch(w + [t[0]]) == Prefix && (w == [] ==> OpenerInGap([], t).None?)
    ensures var (q, p) := Show(k, t[0]); Parts(k, Gap(w), t) == [p] + Parts(q, Gap(w + [t[0]]), t[1..])
  {
    hide THINK_OPEN, THINK_CLOSE, StartMatch, OpenerInGap, Show, Muse, OpenerHere, StartCall;
  }

  /** Behind a closing tag, prose and then printed calls. */
  lemma {:induction false} GapProseShown(k: Reader, seen: bytes, w: bytes, p: bytes, d: R.Document)
    requires Writable(d) && START <= R.Print(d) && Ready(k, seen) && TagFree(p) && MarkerFree(seen + Kept(w, p)) && Tries(seen, w)
    ensures Events(Parts(k, Gap(w), p + R.Print(d))) == Chars(Kept(w, p)) + CallsTold(d)
    decreases |p|, 1
  {
    hide *;
    if p == [] {
      GapCallsShown(k, seen, w, p, d);
    } else if IsBlank(p[0]) {
      TagFreeTail(p);
      KeptBlank(w, p);
      ReadyIsAwake(k, seen);
      GapProseShown(k, seen, w, p[1..], d);
      GapBlankDropped(k, w, p, d);
    } else if StartMatch(w + [p[0]]) == Prefix {
      GapProseHeld(k, seen, w, p, d);
    } else {
      GapProseEnds(k, seen, w, p, d);
    }
  }

  lemma KeptBlank(w: bytes, p: bytes)
    requires p != [] && IsBlank(p[0])
    ensures Kept(w, p) == Kept(w, p[1..])
  {
  }

  lemma GapCallsShown(k: Reader, seen: bytes, w: bytes, p: bytes, d: R.Document)
    requires Writable(d) && START <= R.Print(d) && Ready(k, seen) && Tries(seen, w) && p == []
    ensures Events(Parts(k, Gap(w), p + R.Print(d))) == Chars(Kept(w, p)) + CallsTold(d)
  {
    hide START, R.Print, R.WellSpaced, R.Printable, Parts, CallEvents, StartMatch, Dead, Events, Ready;
    ReadyIsAwake(k, seen);
    var v := R.Print(d)[|START|..];
    assert p + R.Print(d) == START + v;
    GapStarts(k, w, v);
    CallsShown(k, seen, d);
    assert [] + CallsTold(d) == CallsTold(d) && Chars([]) == [];
  }

  lemma GapBlankDropped(k: Reader, w: bytes, p: bytes, d: R.Document)
    requires Writable(d) && !Dead(k) && TagFree(p) && p != [] && IsBlank(p[0])
    ensures Events(Parts(k, Gap(w), p + R.Print(d))) == Events(Parts(k, Gap(w), p[1..] + R.Print(d)))
  {
    hide TagFree, R.Print, R.WellSpaced, R.Printable, Parts, THINK_OPEN, THINK_CLOSE, Dead, Events;
    PrintBegins(d);
    var t := p + R.Print(d);
    FirstOf(p, R.Print(d), t, w);
    NoTagStarts(p, R.Print(d), t);
    GapBlank(k, w, t);
    var e := Events(Parts(k, Gap(w), t[1..]));
    SpelledCons(Blank(p[0]), Parts(k, Gap(w), t[1..]));
    assert [] + e == e;
  }

  lemma KeptOpensNothing(seen: bytes, p: bytes, rest: bytes)
    requires MarkerFree(seen + Kept([], p)) && p != [] && !IsBlank(p[0]) && rest != [] && rest[0] == LT
    ensures OpenerInGap([], p + rest).None?
  {
    hide MarkerFree, Kept, OpenerInGap;
    FreePart(seen, Kept([], p));
    assert [] + Kept([], p) == Kept([], p);
    ProseOpensNothing([], p, rest);
  }

  lemma KeptHeld(seen: bytes, w: bytes, p: bytes)
    requires p != [] && !IsBlank(p[0]) && StartMatch(w + [p[0]]) == Prefix
    requires Tries(seen, w)
    ensures var next, rest := seen + [p[0]], Kept(w + [p[0]], p[1..]);
      seen + Kept(w, p) == next + rest && Chars(Kept(w, p)) == [Char(p[0])] + Chars(rest) && Tries(next, w + [p[0]])
  {
    hide StartMatch, Kept;
    var next, rest := seen + [p[0]], Kept(w + [p[0]], p[1..]);
    KeptFirst(w, p);
    assert next[|next| - |w| - 1..] == seen[|seen| - |w|..] + [p[0]];
    CharsCons(p[0], rest);
  }

  lemma KeptFirst(w: bytes, p: bytes)
    requires p != [] && !IsBlank(p[0]) && StartMatch(w + [p[0]]) == Prefix
    ensures Kept(w, p) == [p[0]] + Kept(w + [p[0]], p[1..])
  {
    hide StartMatch;
  }

  lemma CharsCons(c: byte, t: bytes)
    ensures Chars([c] + t) == [Char(c)] + Chars(t)
  {
  }

  lemma {:induction false} GapProseHeld(k: Reader, seen: bytes, w: bytes, p: bytes, d: R.Document)
    requires Writable(d) && START <= R.Print(d) && Ready(k, seen) && TagFree(p) && MarkerFree(seen + Kept(w, p)) && Tries(seen, w)
    requires p != [] && !IsBlank(p[0]) && StartMatch(w + [p[0]]) == Prefix
    ensures Events(Parts(k, Gap(w), p + R.Print(d))) == Chars(Kept(w, p)) + CallsTold(d)
    decreases |p|, 0
  {
    hide FindSub, MarkerFree, TagFree, START, R.Print, R.WellSpaced, R.Printable, Parts, LastN, CallEvents, OPENERS, THINK_OPEN, THINK_CLOSE;
    hide StartMatch, OpenerInGap, Dead, Show, Events, Ready, CallsTold, Kept, Writable;
    var c, text := p[0], R.Print(d);
    var t := p + text;
    PrintBegins(d);
    ReadyIsAwake(k, seen);
    FirstOf(p, text, t, w);
    NoTagStarts(p, text, t);
    TagFreeTail(p);
    if w == [] { KeptOpensNothing(seen, p, text); }
    var next, rest := seen + [c], Kept(w + [c], p[1..]);
    KeptHeld(seen, w, p);
    FreePrefix(next, rest);
    ShowQuiet(k, seen, c);
    HeldPart(k, w, t);
    var q := Show(k, c).0;
    SpelledCons(Shown(c), Parts(q, Gap(w + [c]), t[1..]));
    GapProseShown(q, next, w + [c], p[1..], d);
    Regroup([Char(c)], Chars(rest), CallsTold(d));
  }

  lemma GapProseEnds(k: Reader, seen: bytes, w: bytes, p: bytes, d: R.Document)
    requires Writable(d) && START <= R.Print(d) && Ready(k, seen) && TagFree(p) && MarkerFree(seen + Kept(w, p)) && Tries(seen, w)
    requires p != [] && !IsBlank(p[0]) && StartMatch(w + [p[0]]) != Prefix
    ensures Events(Parts(k, Gap(w), p + R.Print(d))) == Chars(Kept(w, p)) + CallsTold(d)
  {
    hide FindSub, MarkerFree, TagFree, START, R.Print, R.WellSpaced, R.Printable, Parts, LastN, CallEvents, OPENERS, THINK_OPEN, THINK_CLOSE;
    hide StartMatch, OpenerInGap, Dead, Show, Events, Ready;
    var c, text := p[0], R.Print(d);
    var t := p + text;
    PrintBegins(d);
    ReadyIsAwake(k, seen);
    FirstOf(p, text, t, w);
    NoTagStarts(p, text, t);
    assert seen + p == seen + [c] + p[1..];
    FreePrefix(seen + [c], p[1..]);
    var before := seen[..|seen| - |w|];
    assert seen + [c] == before + (w + [c]);
    FreePart(before, w + [c]);
    NotOpened(w + [c]);
    MatchShape(w + [c]);
    assert w == [] ==> w + [c] == [c];
    GapEnds(k, w, t);
    FreeProseShown(k, seen, p, d);
  }

  // ---------------------------------------------------------------- a whole answer

  /** What the terminal gets of an ordinary answer. */
  function Told(thinking: bool, th: bytes, prose: bytes, d: R.Document): seq<Event>
    requires START <= R.Print(d)
  {
    (if thinking then Chars(th) + ([ThinkClosed] + Chars(Kept([], prose))) else Chars(prose)) + CallsTold(d)
  }

  /** Thinking, its closing tag, prose and printed calls. */
  lemma ThinkingToldWhole(th: bytes, prose: bytes, d: R.Document)
    requires Writable(d) && START <= R.Print(d) && Ordinary(true, th, prose)
    ensures Events(Parts(FirstLook(true), Free, th + (THINK_CLOSE + (prose + R.Print(d))))) == Told(true, th, prose, d)
  {
    hide FindSub, MarkerFree, TagFree, START, R.Print, R.WellSpaced, R.Printable, Parts, THINK_OPEN, THINK_CLOSE, ShowAll, StartMatch, CallsTold, Kept;
    var k := FirstLook(true);
    var behind := prose + R.Print(d);
    var rest := THINK_CLOSE + behind;
    TagIs(THINK_CLOSE);
    assert rest[0] == LT && rest[|THINK_CLOSE|..] == behind;
    FreeIsPlain(th, rest);
    FreeShows(k, th, rest);
    assert [] + th == th && [] + Kept([], prose) == Kept([], prose);
    ThinkingShown(k, [], th);
    var q := ShowAll(k, th).0;
    CloseIsNoOpen(behind);
    TagParts(q, Free, rest);
    var r := q.(think := false);
    SpelledCons(Closed, Parts(r, Gap([]), behind));
    GapProseShown(r, [], [], prose, d);
    Regroup([ThinkClosed], Chars(Kept([], prose)), CallsTold(d));
    Regroup(Chars(th), [ThinkClosed] + Chars(Kept([], prose)), CallsTold(d));
  }

  lemma CloseIsNoOpen(rest: bytes)
    ensures THINK_CLOSE <= THINK_CLOSE + rest && !(THINK_OPEN <= THINK_CLOSE + rest)
  {
    assert THINK_CLOSE[1] != THINK_OPEN[1] && (THINK_CLOSE + rest)[1] == THINK_CLOSE[1];
  }

  /**
   * An answer of thinking, prose and printed calls, however it is cut: the terminal gets the
   * thinking byte for byte, the closing of it, the prose without the blanks dropped behind the
   * tag, and the calls byte for byte behind their opener, begun and finished, and no more.
   */
  lemma OrdinaryAnswerShown(thinking: bool, th: bytes, prose: bytes, d: R.Document, chunks: seq<bytes>, last: bytes)
    requires Writable(d) && Ordinary(thinking, th, prose)
    requires Concat(chunks) + last == Preface(thinking, th, prose) + R.Print(d)
    ensures START <= R.Print(d)
    ensures var (t, held) := StreamChunks(NEW.(inThink := thinking), [], chunks);
      StreamText(t, held, last, true).0.sink == Told(thinking, th, prose, d)
  {
    hide *;
    StanzaParses(d);
    DisplayShowsText(thinking, chunks, last);
    PrefaceIs(thinking, th, prose, R.Print(d));
    if thinking {
      ThinkingToldWhole(th, prose, d);
    } else {
      PlainTold(th, prose, d);
    }
  }

  lemma PrefaceIs(thinking: bool, th: bytes, prose: bytes, rest: bytes)
    ensures Preface(thinking, th, prose) + rest == if thinking then th + (THINK_CLOSE + (prose + rest)) else prose + rest
  {
    hide THINK_CLOSE;
    assert th + (THINK_CLOSE + prose) + rest == th + (THINK_CLOSE + (prose + rest));
  }

  lemma PlainTold(th: bytes, prose: bytes, d: R.Document)
    requires Writable(d) && START <= R.Print(d) && Ordinary(false, th, prose)
    ensures Events(Parts(FirstLook(false), Free, prose + R.Print(d))) == Told(false, th, prose, d)
  {
    hide FindSub, MarkerFree, TagFree, START, R.Print, R.WellSpaced, R.Printable, Parts;
    assert [] + prose == prose;
    FreeProseShown(FirstLook(false), [], prose, d);
  }
}
