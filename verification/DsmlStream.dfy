// The streaming side of the DSML parser (ds4_agent.c:1412-1431, 1527-1560):
// the search for the opening marker, one byte at a time, and the theorem that
// every chunking of the text gives what one parse of the whole text gives.

module DsmlStream {
  import opened Bytes
  import opened DsmlTags
  import opened DsmlParse

  const SEARCH_TAIL: nat := 64

  /** The whole parser record. */
  datatype State = State(core: Core, tail: bytes, raw: bytes, closePrefix: bool)

  const INIT := State(FRESH, [], [], false)

  predicate Final(p: Phase) { p == Done || p == Failed }

  ghost predicate Sound(s: State) {
    && DsmlParse.Valid(s.raw, s.core) && |s.tail| <= SEARCH_TAIL
    && (s.closePrefix ==> s.core.phase == ParamValue)
  }

  /** Position of the last `<`. */
  function LastLt(v: bytes): (r: Option<nat>)
    ensures r.Some? ==> r.value < |v| && v[r.value] == LT && LT !in v[r.value + 1..]
    ensures r.None? ==> LT !in v
  {
    if v == [] then None
    else if v[|v| - 1] == LT then Some(|v| - 1)
    else LastLt(v[..|v| - 1])
  }

  /** `agent_dsml_update_param_close_prefix` on the value bytes seen so far. */
  function ClosePrefix(v: bytes): bool {
    match LastLt(v)
    case None => false
    case Some(i) =>
      var tail := v[i..];
      |tail| <= 64 && CLOSE <= tail && CloseTail(tail).0 && !CloseTail(tail).1
  }

  function Start(s: State): State {
    s.(core := s.core.(phase := Structural, pos := |START|), tail := [], raw := s.raw + START)
  }

  function SearchByte(s: State, c: byte): State {
    var kept := if |s.tail| == SEARCH_TAIL then s.tail[1..] else s.tail;
    var t := s.(tail := kept + [c]);
    if |t.tail| >= |START| && t.tail[|t.tail| - |START|..] == START then Start(t) else t
  }

  function FeedByte(s: State, c: byte): (r: State)
    requires Sound(s)
    ensures Sound(r)
  {
    if s.core.phase == Search then SearchByte(s, c)
    else
      var raw := s.raw + [c];
      var core := Parse(raw, s.core);
      s.(raw := raw, core := core,
      closePrefix := core.phase == ParamValue && ClosePrefix(raw[core.valueStart..]))
  }

  function FeedBytes(s: State, bs: bytes): (r: State)
    requires Sound(s)
    ensures Sound(r)
    decreases |bs|
  {
    if bs == [] then s else FeedBytes(FeedByte(s, bs[0]), bs[1..])
  }

  /** `agent_dsml_feed`. */
  function Feed(s: State, bs: bytes): (r: State)
    requires Sound(s)
    ensures Sound(r)
  {
    if Final(s.core.phase) then s else FeedBytes(s, bs)
  }

  function FeedChunks(s: State, chunks: seq<bytes>): (r: State)
    requires Sound(s)
    ensures Sound(r)
    decreases |chunks|
  {
    if chunks == [] then s else FeedChunks(Feed(s, chunks[0]), chunks[1..])
  }

  // ---------------------------------------------------------------- batch

  const BEGIN: Core := FRESH.(phase := Structural, pos := |START|)

  /** One parse of the text from its first opening marker. */
  function Batch(text: bytes): (r: Core) {
    match FindSub(text, START)
    case None => FRESH
    case Some(k) => Parse(text[k..], BEGIN)
  }

  /** Text after the marker is parsed on from where the parse stood. */
  lemma BatchResumes(text: bytes, more: bytes)
    requires FindSub(text, START).Some?
    ensures FindSub(text + more, START) == FindSub(text, START)
    ensures var raw := text[FindSub(text, START).value..];
      && DsmlParse.Valid(raw + more, Batch(text))
      && Batch(text + more) == Parse(raw + more, Batch(text))
    ensures Final(Batch(text).phase) ==> Batch(text + more) == Batch(text)
  {
    hide Parse, FindSub, START, CLOSE, OPEN;
    FindSubStable(text, more, START);
    var k := FindSub(text, START).value;
    assert (text + more)[k..] == text[k..] + more;
    ParseResumes(text[k..], more, BEGIN);
    assert Final(Batch(text).phase) ==> Parse(text[k..] + more, Batch(text)) == Batch(text) by {
      ParseFinal(text[k..] + more, Batch(text));
    }
  }

  lemma ParseFinal(raw: bytes, c: Core)
    requires DsmlParse.Valid(raw, c)
    ensures Final(c.phase) ==> Parse(raw, c) == c
  {
  }

  // ---------------------------------------------------------------- streaming

  /** What the record holds once the bytes of `text` have gone through it. */
  ghost predicate Tracks(text: bytes, s: State) {
    && Sound(s)
    && s.core == Batch(text)
    && match FindSub(text, START)
       case None => s.core.phase == Search && s.raw == [] && s.tail == LastN(text, SEARCH_TAIL)
       case Some(k) => s.core.phase != Search && s.raw == text[k..]
  }

  lemma SlidingTail(text: bytes, tail: bytes, c: byte, pat: bytes)
    requires tail == LastN(text, SEARCH_TAIL) && |pat| <= SEARCH_TAIL
    ensures var kept := (if |tail| == SEARCH_TAIL then tail[1..] else tail) + [c];
      && kept == LastN(text + [c], SEARCH_TAIL)
      && (|pat| <= |kept| <==> |pat| <= |text| + 1)
      && (|pat| <= |kept| ==> kept[|kept| - |pat|..] == (text + [c])[|text| + 1 - |pat|..])
  {
  }

  lemma SearchTracks(text: bytes, s: State, c: byte)
    requires Tracks(text, s) && FindSub(text, START).None?
    ensures Tracks(text + [c], FeedByte(s, c))
  {
    hide START, CLOSE, OPEN, Parse, FindSub, LastN;
    LiteralsArePlain();
    FindSubLast(text, c, START);
    SlidingTail(text, s.tail, c, START);
    ParseNothing(START, BEGIN);
  }

  lemma ParseNothing(raw: bytes, c: Core)
    requires c.phase == Structural && c.pos == |raw|
    ensures Parse(raw, c) == c
  {
  }

  lemma FoundTracks(text: bytes, s: State, c: byte)
    requires Tracks(text, s) && FindSub(text, START).Some?
    ensures Tracks(text + [c], FeedByte(s, c))
  {
    hide START, CLOSE, OPEN, Parse, FindSub;
    BatchResumes(text, [c]);
    var k := FindSub(text, START).value;
    assert (text + [c])[k..] == text[k..] + [c];
    ParseStarted(s.raw + [c], s.core);
  }

  lemma ParseStarted(raw: bytes, c: Core)
    requires DsmlParse.Valid(raw, c) && c.phase != Search
    ensures Parse(raw, c).phase != Search
  {
  }

  lemma {:induction false} FeedBytesTracks(text: bytes, s: State, bs: bytes)
    requires Tracks(text, s)
    ensures Tracks(text + bs, FeedBytes(s, bs))
    decreases |bs|
  {
    hide FeedByte, START, Batch, Parse, FindSub;
    if bs == [] {
      assert text + bs == text;
    } else {
      if FindSub(text, START).None? { SearchTracks(text, s, bs[0]); } else { FoundTracks(text, s, bs[0]); }
      FeedBytesTracks(text + [bs[0]], FeedByte(s, bs[0]), bs[1..]);
      assert text + [bs[0]] + bs[1..] == text + bs;
    }
  }

  /** After a final state whole chunks are dropped, so only the core is followed. */
  ghost predicate Follows(text: bytes, s: State) {
    Sound(s) && s.core == Batch(text) && (!Final(s.core.phase) ==> Tracks(text, s))
  }

  lemma FinalFound(text: bytes)
    requires Batch(text).phase != Search
    ensures FindSub(text, START).Some?
  {
  }

  lemma TracksFollows(text: bytes, s: State)
    requires Tracks(text, s)
    ensures Follows(text, s)
  {
    hide Batch, FindSub, START;
  }

  lemma {:induction false} FeedChunksFollows(text: bytes, s: State, chunks: seq<bytes>)
    requires Follows(text, s)
    ensures Follows(text + Concat(chunks), FeedChunks(s, chunks))
    decreases |chunks|
  {
    hide Tracks, FeedBytes, START, Batch, Parse, FindSub, Sound;
    if chunks == [] {
      assert text + Concat(chunks) == text;
    } else {
      var c := chunks[0];
      if Final(s.core.phase) {
        FinalFound(text);
        BatchResumes(text, c);
      } else {
        FeedBytesTracks(text, s, c);
        TracksFollows(text + c, FeedBytes(s, c));
      }
      FeedChunksFollows(text + c, Feed(s, c), chunks[1..]);
      assert text + c + Concat(chunks[1..]) == text + Concat(chunks);
    }
  }

  /**
   * Streaming equals batch: however a text is cut into chunks, a fresh parser
   * ends with the state, calls and error of one parse of the whole text from its
   * first opening marker; its buffer is that text until it reaches a final state.
   */
  lemma StreamingIsBatch(chunks: seq<bytes>)
    ensures var text := Concat(chunks); var s := FeedChunks(INIT, chunks);
      && s.core == Batch(text)
      && (s.core.phase == Search <==> FindSub(text, START).None?)
      && (s.core.phase == Structural || s.core.phase == ParamValue ==>
        s.raw == text[FindSub(text, START).value..])
  {
    hide Parse, FindSub, START;
    assert [] + Concat(chunks) == Concat(chunks);
    LiteralsArePlain();
    FindSubNone([], START);
    FeedChunksFollows([], INIT, chunks);
    var text := Concat(chunks);
    if FindSub(text, START).Some? {
      ParseStarted(text[FindSub(text, START).value..], BEGIN);
    }
  }

  // ------------------------------------------------------ the close-tag prefix flag

  /** The flag is on exactly while the value ends in a marked, unfinished close tag of at most 64 bytes. */
  lemma ClosePrefixExact(v: bytes)
    ensures ClosePrefix(v) <==>
      exists i :: 0 <= i <= |v| && IsUnfinishedClose(v[i..])
  {
    hide CloseTail, LastLt;
    if ClosePrefix(v) {
      assert IsUnfinishedClose(v[LastLt(v).value..]) by {
        CloseTailExact(v[LastLt(v).value..]);
      }
    }
    if i :| 0 <= i <= |v| && IsUnfinishedClose(v[i..]) {
      UnfinishedStart(v, i);
      CloseTailExact(v[i..]);
    }
  }

  ghost predicate IsUnfinishedClose(t: bytes) {
    && |t| <= 64 && CLOSE <= t && !IsCloseWord(t, PARAMETER)
    && exists w :: IsCloseWord(w, PARAMETER) && t <= w
  }

  lemma UnfinishedShape(t: bytes)
    requires IsUnfinishedClose(t)
    ensures |t| > 0 && t[0] == LT && LT !in t[1..]
  {
    LiteralsArePlain();
    var w :| IsCloseWord(w, PARAMETER) && t <= w;
    var s: Spelling :| ValidSpelling(s) && w == CloseWord(PARAMETER, s);
    CloseWordShape(PARAMETER, s);
    assert w[|w| - 1] == GT;
    assert forall k :: 0 < k < |t| ==> t[k] == w[k] && t[k] != LT;
  }

  lemma UnfinishedStart(v: bytes, i: nat)
    requires i <= |v| && IsUnfinishedClose(v[i..])
    ensures LastLt(v) == Some(i)
  {
    hide LastLt, IsUnfinishedClose;
    UnfinishedShape(v[i..]);
    assert v[i..][1..] == v[i + 1..];
    var r := LastLt(v);
    assert v[i] == v[i..][0] == LT;
    assert r.Some?;
    assert LT !in v[i + 1..] && LT !in v[r.value + 1..];
  }

  /** Just before the final `>` of a close tag of at most 65 bytes the flag is on. */
  lemma FlagBeforeGt(u: bytes, s: Spelling)
    requires ValidSpelling(s) && |CloseWord(PARAMETER, s)| <= 65
    ensures var w := CloseWord(PARAMETER, s); ClosePrefix(u + w[..|w| - 1])
  {
    hide LastLt, ClosePrefix, CLOSE;
    LiteralsArePlain();
    var w := CloseWord(PARAMETER, s);
    CloseWordShape(PARAMETER, s);
    var t := w[..|w| - 1];
    var v := u + t;
    assert v[|u|..] == t;
    assert IsCloseWord(w, PARAMETER) && t <= w;
    forall s': Spelling | ValidSpelling(s') ensures t != CloseWord(PARAMETER, s') {
      CloseWordShape(PARAMETER, s');
      assert t[|t| - 1] == w[|t| - 1] != GT;
    }
    assert CLOSE <= t by {
      assert w == CLOSE + (PARAMETER + s.before + (if s.bar then BAR else []) + s.after + [GT]);
    }
    assert IsUnfinishedClose(t);
    ClosePrefixExact(v);
  }
}
