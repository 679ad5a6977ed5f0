// Context compaction (ds4_agent.c:7285-7310, 7340-7526): a transaction over the
// transcript and the live session. The engine's answers are given: how a sync ends,
// which tokens the summary argmax yields, whether an evaluation fails.

module Compaction {
  import opened Bytes

  type Token = nat

  /** A live session holds the tokens it has evaluated, or it has been invalidated. */
  datatype Session = Invalid | Live(tokens: seq<Token>)

  datatype Role = User | System | Tool

  /** Tokenizer, chat template and control tokens. */
  datatype Engine = Engine(
    system: seq<Token>,
    message: (Role, bytes) -> seq<Token>,
    assistantPrefix: seq<Token>,
    text: Token -> bytes,
    eos: Token,
    thinkEnd: Option<Token>,
    dsml: Option<Token>,
    userMarker: Option<Token>)

  /** How a sync ends; a failed one leaves the session in some state. */
  datatype Sync = Synced | SyncFailed(left: Session) | SyncInterrupted(left: Session)

  /** What the engine and the user do during one compaction. */
  datatype Weather = Weather(
    first: Sync,
    interrupted: nat -> bool,
    argmax: nat -> Token,
    evalFails: nat -> Option<Session>,
    last: Sync,
    bashUpdate: Option<bytes>)

  const SUMMARY_MAX: nat := 4096
  const MIN_ROOM: int := 256
  const TAIL_DIVISOR: nat := 10
  const TAIL_CAP: nat := 50000

  const HEADING: bytes := [LF, LF] + Ascii("[ds4-agent compacted earlier conversation. ")
                          + Ascii("Durable task-state summary follows.]") + [LF]
  const CLOSING: bytes := Ascii("[End compacted summary. ") + Ascii("Recent conversation continues ")
                          + Ascii("verbatim below.]") + [LF, LF]

  // ---------------------------------------------------------------- the summary

  datatype Summary = Written(text: bytes) | Stopped | Failed

  predicate IsControl(e: Engine, t: Token) {
    e.thinkEnd == Some(t) || e.dsml == Some(t)
  }

  /** The summary from step `i` on, with `text` written so far. */
  function Summarize(e: Engine, w: Weather, i: nat, max: nat, text: bytes): Summary
    decreases if i < max then max - i else 0
  {
    if i >= max then Written(text)
    else if w.interrupted(i) then Stopped
    else
      var t := w.argmax(i);
      if t == e.eos then Written(text)
      else if IsControl(e, t) then
        Written(if e.dsml == Some(t) && text != [] && text[|text| - 1] == LT then text[..|text| - 1] else text)
      else if w.evalFails(i).Some? then Failed
      else Summarize(e, w, i + 1, max, text + e.text(t))
  }

  function SummaryMessage(summary: bytes): bytes {
    var text := HEADING + CText(summary);
    (if text[|text| - 1] != LF then text + [LF] else text) + CLOSING
  }

  /** A message that carries a text byte for byte between its heading and its closing line, which starts on a line of its own. */
  ghost predicate Carries(message: bytes, text: bytes) {
    var h, m := |HEADING|, |HEADING| + |text|;
    && m + |CLOSING| <= |message| && message[..h] == HEADING && message[h..m] == text
    && message[|message| - |CLOSING|..] == CLOSING
    && message[m..|message| - |CLOSING|] == (if message[m - 1] == LF then [] else [LF])
  }

  /** The message carries the C text of the summary, and no other text of that length. */
  lemma MessageCarriesSummary(summary: bytes)
    ensures Carries(SummaryMessage(summary), CText(summary))
    ensures forall text :: Carries(SummaryMessage(summary), text) && |text| == |CText(summary)| ==> text == CText(summary)
    ensures NUL !in summary ==> Carries(SummaryMessage(summary), summary)
  {
    hide HEADING, CLOSING, CText;
    HeadingEnds();
    var m := SummaryMessage(summary);
    var text := CText(summary);
    var head := HEADING + text;
    assert m[..|head|] == head && m[|head| - 1] == head[|head| - 1];
    assert m[|HEADING|..|head|] == text && m[..|HEADING|] == HEADING;
    if NUL !in summary { CTextIs(summary); }
  }

  lemma HeadingEnds()
    ensures HEADING != [] && HEADING[|HEADING| - 1] == LF
  {
  }

  /** The texts of the first `n` tokens that the model picks. */
  function Spoken(e: Engine, w: Weather, n: nat): bytes {
    if n == 0 then [] else Spoken(e, w, n - 1) + e.text(w.argmax(n - 1))
  }

  /** Nothing stops the summary before step `n`: no interrupt, no end or control token, no failed evaluation. */
  ghost predicate GoesOn(e: Engine, w: Weather, n: nat) {
    forall i: nat :: i < n ==> !w.interrupted(i) && w.argmax(i) != e.eos && !IsControl(e, w.argmax(i)) && w.evalFails(i).None?
  }

  /** A text without the `<` it may end in. */
  function WithoutLt(text: bytes): bytes {
    if text != [] && text[|text| - 1] == LT then text[..|text| - 1] else text
  }

  /**
   * What the model writes: the texts of its tokens, in order, up to the first end token or
   * control token, or up to the limit; without a `<` right before the DSML token. An
   * interrupt before that stops it, and a failed evaluation fails it.
   */
  lemma SummaryExact(e: Engine, w: Weather, max: nat, n: nat)
    requires n <= max && GoesOn(e, w, n)
    ensures n == max ==> Summarize(e, w, 0, max, []) == Written(Spoken(e, w, n))
    ensures n < max && w.interrupted(n) ==> Summarize(e, w, 0, max, []) == Stopped
    ensures n < max && !w.interrupted(n) && w.argmax(n) == e.eos ==> Summarize(e, w, 0, max, []) == Written(Spoken(e, w, n))
    ensures n < max && !w.interrupted(n) && w.argmax(n) != e.eos && IsControl(e, w.argmax(n)) ==>
              Summarize(e, w, 0, max, [])
              == Written(if e.dsml == Some(w.argmax(n)) then WithoutLt(Spoken(e, w, n)) else Spoken(e, w, n))
    ensures n < max && !w.interrupted(n) && w.argmax(n) != e.eos && !IsControl(e, w.argmax(n)) && w.evalFails(n).Some? ==>
              Summarize(e, w, 0, max, []) == Failed
  {
    SummaryReaches(e, w, max, n);
  }

  lemma {:induction false} SummaryReaches(e: Engine, w: Weather, max: nat, n: nat)
    requires n <= max && GoesOn(e, w, n)
    ensures Summarize(e, w, 0, max, []) == Summarize(e, w, n, max, Spoken(e, w, n))
  {
    if n > 0 {
      assert GoesOn(e, w, n - 1);
      SummaryReaches(e, w, max, n - 1);
    }
  }

  // ---------------------------------------------------------------- the tail

  function TailBudget(ctx: nat): (b: nat)
    ensures 1 <= b <= TAIL_CAP
  {
    var b := ctx / TAIL_DIVISOR;
    if b > TAIL_CAP then TAIL_CAP else if b < 1 then 1 else b
  }

  /** The budget is the largest number of tokens, up to the cap, that is a tenth of the context, but one at least. */
  lemma BudgetIsTenth(ctx: nat, b: nat)
    ensures b == TailBudget(ctx) <==>
              1 <= b <= TAIL_CAP && (b > 1 ==> TAIL_DIVISOR * b <= ctx) && (b < TAIL_CAP ==> ctx < TAIL_DIVISOR * (b + 1))
  {
  }

  /** First position of the window that the tail may keep. */
  function WindowStart(ctx: nat, bottom: nat, systemLen: nat): (start: nat)
    requires systemLen <= bottom
    ensures systemLen <= start <= bottom && bottom - start <= TailBudget(ctx)
    ensures start > systemLen ==> bottom - start == TailBudget(ctx)
  {
    var target := bottom - TailBudget(ctx);
    if target < systemLen then systemLen else target
  }

  /** The tail starts at the first user marker of the window, or at the window if it has none. */
  ghost predicate IsTailStart(e: Engine, ctx: nat, transcript: seq<Token>, start: nat) {
    |e.system| <= |transcript| &&
    var w := WindowStart(ctx, |transcript|, |e.system|);
    && w <= start <= |transcript|
    && (e.userMarker.None? || e.userMarker.value !in transcript[w..] ==> start == w)
    && (e.userMarker.Some? && e.userMarker.value in transcript[w..] ==>
          start < |transcript| && transcript[start] == e.userMarker.value && e.userMarker.value !in transcript[w..start])
  }

  lemma SliceToEnd(s: seq<Token>, from: nat)
    requires from <= |s|
    ensures s[from..|s|] == s[from..]
  {
  }

  lemma SliceHolds(s: seq<Token>, from: nat)
    ensures forall i, j {:trigger s[i], s[from..j]} :: from <= i < j <= |s| ==> s[i] in s[from..j]
  {
    forall i, j {:trigger s[i], s[from..j]} | from <= i < j <= |s| ensures s[i] in s[from..j] {
      assert s[from..j][i - from] == s[i];
    }
  }

  /** The window's start with no marker behind it, and the first marker otherwise, is the one tail start. */
  lemma OneTailStart(e: Engine, ctx: nat, transcript: seq<Token>, start: nat)
    requires |e.system| <= |transcript|
    requires var w := WindowStart(ctx, |transcript|, |e.system|);
      || (start == w && (e.userMarker.None? || e.userMarker.value !in transcript[w..]))
      || (e.userMarker.Some? && w <= start < |transcript| && transcript[start] == e.userMarker.value
          && e.userMarker.value !in transcript[w..start])
    ensures IsTailStart(e, ctx, transcript, start) && forall k: nat :: IsTailStart(e, ctx, transcript, k) ==> k == start
  {
    SliceHolds(transcript, WindowStart(ctx, |transcript|, |e.system|));
  }

  /** The rebuilt transcript: system tokens, the summary message, a verbatim end of the old transcript. */
  ghost predicate IsCompacted(e: Engine, ctx: nat, old_: seq<Token>, summary: bytes, new_: seq<Token>) {
    exists start: nat :: IsTailStart(e, ctx, old_, start)
                         && new_ == e.system + e.message(System, SummaryMessage(summary)) + old_[start..]
  }

  class Worker {
    var transcript: seq<Token>
    var session: Session

    /** `agent_compact_tail_start`. */
    method TailStart(e: Engine, ctx: nat) returns (start: nat)
      requires |e.system| <= |transcript|
      ensures IsTailStart(e, ctx, transcript, start) && forall k: nat :: IsTailStart(e, ctx, transcript, k) ==> k == start
    {
      hide IsTailStart;
      var bottom := |transcript|;
      var budget := ctx / TAIL_DIVISOR;
      if budget > TAIL_CAP { budget := TAIL_CAP; }
      if budget < 1 { budget := 1; }
      var target := bottom - budget;
      if target < |e.system| { target := |e.system|; }
      assert target == WindowStart(ctx, bottom, |e.system|);
      start := target;
      if e.userMarker.None? {
        OneTailStart(e, ctx, transcript, start);
        return;
      }
      for i := target to bottom
        invariant e.userMarker.value !in transcript[target..i]
      {
        if transcript[i] == e.userMarker.value {
          start := i;
          OneTailStart(e, ctx, transcript, start);
          return;
        }
        assert transcript[target..i + 1] == transcript[target..i] + [transcript[i]];
      }
      SliceToEnd(transcript, target);
      OneTailStart(e, ctx, transcript, start);
    }

    /** `ds4_session_sync`. */
    method SyncTo(tokens: seq<Token>, how: Sync) returns (ok: bool)
      modifies `session
      ensures ok <==> how == Synced
      ensures session == match how case Synced => Live(tokens) case SyncFailed(left) => left case SyncInterrupted(left) => left
    {
      match how {
        case Synced => session := Live(tokens);
        case SyncFailed(left) => session := left;
        case SyncInterrupted(left) => session := left;
      }
      ok := how == Synced;
    }

    /** The summary loop: it evaluates every summary token in the live session. */
    method WriteSummary(e: Engine, w: Weather, max: nat) returns (result: Summary)
      modifies `session
      ensures result == Summarize(e, w, 0, max, [])
      ensures result.Stopped? || result.Failed? ==> session == Invalid
    {
      var text := [];
      var i := 0;
      while i < max
        invariant i <= max && Summarize(e, w, i, max, text) == Summarize(e, w, 0, max, [])
      {
        if w.interrupted(i) {
          session := Invalid;
          return Stopped;
        }
        var t := w.argmax(i);
        if t == e.eos { break; }
        if IsControl(e, t) {
          if e.dsml == Some(t) && |text| > 0 && text[|text| - 1] == LT { text := text[..|text| - 1]; }
          return Written(text);
        }
        if w.evalFails(i).Some? {
          session := w.evalFails(i).value;
          session := Invalid;
          return Failed;
        }
        if session.Live? { session := Live(session.tokens + [t]); }
        text := text + e.text(t);
        i := i + 1;
      }
      return Written(text);
    }

    /**
     * `agent_worker_compact`. A failure leaves the transcript as it was and the session
     * untouched or invalid. A success with nothing to compact changes nothing. Any other
     * success rebuilds the transcript, and the session holds exactly what was rebuilt,
     * before a notice about background jobs is appended to the transcript alone.
     */
    method Compact(e: Engine, w: Weather, ctx: nat, prompt: bytes) returns (ok: bool)
      modifies this
      ensures !ok ==> transcript == old(transcript)
      ensures !ok ==> session == Invalid || (session == old(session) && NoRoom(e, ctx, old(transcript), prompt))
      ensures |old(transcript)| <= |e.system| ==> ok && unchanged(this)
      ensures |old(transcript)| > |e.system| ==>
                (ok <==> !NoRoom(e, ctx, old(transcript), prompt) && w.first == Synced && w.last == Synced
                         && SummaryOf(e, w, ctx, old(transcript), prompt).Written?
                         && CText(SummaryOf(e, w, ctx, old(transcript), prompt).text) != [])
      ensures ok && |old(transcript)| > |e.system| ==>
                && session.Live?
                && IsCompacted(e, ctx, old(transcript), SummaryOf(e, w, ctx, old(transcript), prompt).text, session.tokens)
                && transcript == session.tokens + (if w.bashUpdate.Some? then e.message(Tool, w.bashUpdate.value) else [])
    {
      hide HEADING, CLOSING, SummaryMessage, CText;
      var bottom := |transcript|;
      if bottom <= 0 { return true; }
      if bottom <= |e.system| { return true; }
      var request := transcript + e.message(User, prompt) + e.assistantPrefix;
      var room := ctx - |request| - 1;
      if room < MIN_ROOM { return false; }
      var max := if room < SUMMARY_MAX then room else SUMMARY_MAX;
      var synced := SyncTo(request, w.first);
      if !synced {
        session := Invalid;
        return false;
      }
      var summary := WriteSummary(e, w, max);
      if !summary.Written? { return false; }
      if CText(summary.text) == [] {
        session := Invalid;
        return false;
      }
      var start := TailStart(e, ctx);
      var compacted := e.system + e.message(System, SummaryMessage(summary.text)) + transcript[start..];
      var oldTranscript := transcript;
      transcript := compacted;
      synced := SyncTo(transcript, w.last);
      if !synced {
        session := Invalid;
        transcript := oldTranscript;
        return false;
      }
      assert IsCompacted(e, ctx, oldTranscript, summary.text, compacted);
      if w.bashUpdate.Some? { transcript := transcript + e.message(Tool, w.bashUpdate.value); }
      return true;
    }
  }

  /** Before a compaction that has room, its prompt and any summary fit into the context together. */
  lemma SummaryFits(e: Engine, w: Weather, ctx: nat, transcript: seq<Token>, prompt: bytes) returns (max: nat)
    requires !NoRoom(e, ctx, transcript, prompt)
    ensures SummaryOf(e, w, ctx, transcript, prompt) == Summarize(e, w, 0, max, [])
    ensures MIN_ROOM <= max <= SUMMARY_MAX
    ensures |transcript| + |e.message(User, prompt)| + |e.assistantPrefix| + max < ctx
    ensures max == SUMMARY_MAX || |transcript| + |e.message(User, prompt)| + |e.assistantPrefix| + max + 1 == ctx
  {
    var room := Room(e, ctx, transcript, prompt);
    max := if room < SUMMARY_MAX then room else SUMMARY_MAX;
  }

  function Room(e: Engine, ctx: nat, transcript: seq<Token>, prompt: bytes): int {
    ctx - |transcript + e.message(User, prompt) + e.assistantPrefix| - 1
  }

  predicate NoRoom(e: Engine, ctx: nat, transcript: seq<Token>, prompt: bytes) {
    Room(e, ctx, transcript, prompt) < MIN_ROOM
  }

  /** What the model writes as the summary of a transcript. */
  function SummaryOf(e: Engine, w: Weather, ctx: nat, transcript: seq<Token>, prompt: bytes): Summary {
    var room := Room(e, ctx, transcript, prompt);
    Summarize(e, w, 0, if room < 0 then 0 else if room < SUMMARY_MAX then room else SUMMARY_MAX, [])
  }

  /** `kept` tokens at the end of the old transcript are kept verbatim, and nothing else of it but the system tokens. */
  ghost predicate KeepsRecent(e: Engine, ctx: nat, old_: seq<Token>, summary: bytes, new_: seq<Token>, kept: nat) {
    && kept <= TailBudget(ctx) && |e.system| + kept <= |old_|
    && new_ == e.system + e.message(System, SummaryMessage(summary)) + old_[|old_| - kept..]
  }

  /**
   * What compaction keeps: a message that carries the summary, and the end of the old
   * transcript, verbatim and within the tail budget. If any token of the window opens a user turn the kept part starts with the
   * first that does, and otherwise it is the whole window.
   */
  lemma CompactionKeepsRecent(e: Engine, ctx: nat, old_: seq<Token>, summary: bytes, new_: seq<Token>) returns (kept: nat)
    requires IsCompacted(e, ctx, old_, summary, new_) && |old_| > |e.system|
    ensures KeepsRecent(e, ctx, old_, summary, new_, kept)
    ensures exists message :: Carries(message, CText(summary))
              && new_ == e.system + e.message(System, message) + old_[|old_| - kept..]
    ensures var window := old_[WindowStart(ctx, |old_|, |e.system|)..];
      if e.userMarker.Some? && e.userMarker.value in window
      then kept > 0 && old_[|old_| - kept] == e.userMarker.value && e.userMarker.value !in window[..|window| - kept]
      else kept == |window|
  {
    hide SummaryMessage, Carries, CText;
    MessageCarriesSummary(summary);
    var start: nat :| IsTailStart(e, ctx, old_, start)
                      && new_ == e.system + e.message(System, SummaryMessage(summary)) + old_[start..];
    var w := WindowStart(ctx, |old_|, |e.system|);
    kept := |old_| - start;
    assert old_[w..][..start - w] == old_[w..start];
  }
}
