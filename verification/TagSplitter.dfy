// The think-tag splitter that three front ends share in shape
// (ds4_agent.c:3421-3487, ds4_eval.c:2108-2150, ds4_cli.c:333-377): it looks for
// <think> and </think>, holds back a partial tag at the end of a fragment, and
// hands every other byte on. What it drives is a parameter.

module TagSplitter {
  import opened Bytes

  const THINK_OPEN: bytes := Ascii("<think>")
  const THINK_CLOSE: bytes := Ascii("</think>")

  /** A machine behind the splitter. While `owned` holds, tags are ordinary bytes. */
  datatype Machine<!S> = Machine(owned: S -> bool, open: S -> S, close: S -> S, step: (S, byte) -> S)

  predicate Partial(s: bytes, tag: bytes) {
    |s| < |tag| && s <= tag
  }

  predicate HeldBack(buf: bytes) {
    buf != [] && buf[0] == LT && (Partial(buf, THINK_OPEN) || Partial(buf, THINK_CLOSE))
  }

  /** Drive the machine over `buf`: its new state and the bytes held back. */
  function Drive<S>(m: Machine<S>, s: S, buf: bytes, finish: bool): (r: (S, bytes))
    ensures finish ==> r.1 == []
    decreases |buf|
  {
    if buf == [] then (s, [])
    else if !m.owned(s) && THINK_OPEN <= buf then Drive(m, m.open(s), buf[|THINK_OPEN|..], finish)
    else if !m.owned(s) && THINK_CLOSE <= buf then Drive(m, m.close(s), buf[|THINK_CLOSE|..], finish)
    else if !finish && !m.owned(s) && HeldBack(buf) then (s, buf)
    else Drive(m, m.step(s, buf[0]), buf[1..], finish)
  }

  /** A whole tag is seen in any longer text, and a missing one needs a partial one to appear later. */
  lemma TagInExtension(a: bytes, b: bytes)
    requires a != []
    ensures THINK_OPEN <= a ==> THINK_OPEN <= a + b
    ensures THINK_CLOSE <= a ==> THINK_CLOSE <= a + b
    ensures !(THINK_OPEN <= a) && THINK_OPEN <= a + b ==> HeldBack(a)
    ensures !(THINK_CLOSE <= a) && THINK_CLOSE <= a + b ==> HeldBack(a)
    ensures HeldBack(a + b) ==> HeldBack(a)
  {
    if THINK_OPEN <= a + b && |a| < |THINK_OPEN| { assert a == (a + b)[..|a|] == THINK_OPEN[..|a|]; }
    if THINK_CLOSE <= a + b && |a| < |THINK_CLOSE| { assert a == (a + b)[..|a|] == THINK_CLOSE[..|a|]; }
    if HeldBack(a + b) { assert a <= a + b; }
  }

  lemma TagNotHeld(a: bytes)
    requires THINK_OPEN <= a || THINK_CLOSE <= a
    ensures !HeldBack(a)
    ensures THINK_CLOSE <= a ==> !(THINK_OPEN <= a)
  {
    assert THINK_OPEN[1] != THINK_CLOSE[1];
    if THINK_OPEN <= a { assert a[1] == THINK_OPEN[1]; }
    if THINK_CLOSE <= a { assert a[1] == THINK_CLOSE[1]; }
  }

  /** Cutting the text anywhere, and carrying the held bytes over, changes nothing. */
  lemma {:induction false} DriveSplits<S>(m: Machine<S>, s: S, a: bytes, b: bytes, finish: bool)
    ensures var (s1, held) := Drive(m, s, a, false);
      Drive(m, s, a + b, finish) == Drive(m, s1, held + b, finish)
    decreases |a|
  {
    hide THINK_OPEN, THINK_CLOSE, HeldBack;
    TagLengths();
    if a == [] {
      assert a + b == b && [] + b == b;
    } else {
      TagInExtension(a, b);
      if !m.owned(s) && THINK_OPEN <= a {
        assert (a + b)[|THINK_OPEN|..] == a[|THINK_OPEN|..] + b;
        DriveSplits(m, m.open(s), a[|THINK_OPEN|..], b, finish);
      } else if !m.owned(s) && THINK_CLOSE <= a {
        TagNotHeld(a);
        TagNotHeld(a + b);
        assert (a + b)[|THINK_CLOSE|..] == a[|THINK_CLOSE|..] + b;
        DriveSplits(m, m.close(s), a[|THINK_CLOSE|..], b, finish);
      } else if !m.owned(s) && HeldBack(a) {
      } else {
        assert (a + b)[0] == a[0] && (a + b)[1..] == a[1..] + b;
        DriveSplits(m, m.step(s, a[0]), a[1..], b, finish);
      }
    }
  }

  lemma TagLengths()
    ensures |THINK_OPEN| == 7 && |THINK_CLOSE| == 8
  {
  }

  // ---------------------------------------------------------------- chunks

  /** One unfinished call per chunk, the held bytes carried from call to call. */
  function DriveChunks<S>(m: Machine<S>, s: S, held: bytes, chunks: seq<bytes>): (S, bytes)
    decreases |chunks|
  {
    if chunks == [] then (s, held)
    else
      var (s1, held1) := Drive(m, s, held + chunks[0], false);
      DriveChunks(m, s1, held1, chunks[1..])
  }

  /**
   * Split invariance: any cutting of the text into unfinished calls followed by a
   * finishing call ends in the state of one finished call on the whole text.
   */
  lemma {:induction false} SplitInvariance<S>(m: Machine<S>, s: S, held: bytes, chunks: seq<bytes>, last: bytes)
    ensures var (s1, held1) := DriveChunks(m, s, held, chunks);
      Drive(m, s1, held1 + last, true) == Drive(m, s, held + (Concat(chunks) + last), true)
    decreases |chunks|
  {
    if chunks == [] {
      assert Concat(chunks) + last == last;
    } else {
      var (s1, held1) := Drive(m, s, held + chunks[0], false);
      SplitInvariance(m, s1, held1, chunks[1..], last);
      var rest := Concat(chunks[1..]) + last;
      DriveSplits(m, s, held + chunks[0], rest, true);
      assert held + chunks[0] + rest == held + (Concat(chunks) + last);
    }
  }

  /** Unfinished calls, chunk by chunk, are one unfinished call on the whole text. */
  lemma {:induction false} ChunksAreOne<S>(m: Machine<S>, s: S, held: bytes, chunks: seq<bytes>)
    requires held == [] || Drive(m, s, held, false) == (s, held)
    ensures DriveChunks(m, s, held, chunks) == Drive(m, s, held + Concat(chunks), false)
    decreases |chunks|
  {
    if chunks == [] {
      assert held + Concat(chunks) == held;
    } else {
      var (s1, held1) := Drive(m, s, held + chunks[0], false);
      HeldStays(m, s, held + chunks[0]);
      ChunksAreOne(m, s1, held1, chunks[1..]);
      DriveSplits(m, s, held + chunks[0], Concat(chunks[1..]), false);
      assert held + chunks[0] + Concat(chunks[1..]) == held + Concat(chunks);
    }
  }

  /** Held bytes are held again. */
  lemma {:induction false} HeldStays<S>(m: Machine<S>, s: S, buf: bytes)
    ensures var (s1, held) := Drive(m, s, buf, false); Drive(m, s1, held, false) == (s1, held)
    decreases |buf|
  {
    hide THINK_OPEN, THINK_CLOSE, HeldBack;
    TagLengths();
    if buf == [] {
    } else if !m.owned(s) && THINK_OPEN <= buf {
      HeldStays(m, m.open(s), buf[|THINK_OPEN|..]);
    } else if !m.owned(s) && THINK_CLOSE <= buf {
      HeldStays(m, m.close(s), buf[|THINK_CLOSE|..]);
    } else if !m.owned(s) && HeldBack(buf) {
    } else {
      HeldStays(m, m.step(s, buf[0]), buf[1..]);
    }
  }

  /** Held bytes are a proper prefix of one of the two tags. */
  lemma {:induction false} HeldIsPartial<S>(m: Machine<S>, s: S, buf: bytes)
    ensures var held := Drive(m, s, buf, false).1;
      held == [] || HeldBack(held)
    decreases |buf|
  {
    hide THINK_OPEN, THINK_CLOSE, HeldBack;
    TagLengths();
    if buf == [] {
    } else if !m.owned(s) && THINK_OPEN <= buf {
      HeldIsPartial(m, m.open(s), buf[|THINK_OPEN|..]);
    } else if !m.owned(s) && THINK_CLOSE <= buf {
      HeldIsPartial(m, m.close(s), buf[|THINK_CLOSE|..]);
    } else if !m.owned(s) && HeldBack(buf) {
    } else {
      HeldIsPartial(m, m.step(s, buf[0]), buf[1..]);
    }
  }

  // ---------------------------------------------------------------- meaning

  datatype Token = Open | Close | Other(c: byte)

  /** The text as tags and other bytes, tags first, from left to right. */
  function Tokens(text: bytes): seq<Token>
    decreases |text|
  {
    if text == [] then []
    else if THINK_OPEN <= text then [Open] + Tokens(text[|THINK_OPEN|..])
    else if THINK_CLOSE <= text then [Close] + Tokens(text[|THINK_CLOSE|..])
    else [Other(text[0])] + Tokens(text[1..])
  }

  function Render(ts: seq<Token>): bytes {
    if ts == [] then []
    else (match ts[0] case Open => THINK_OPEN case Close => THINK_CLOSE case Other(c) => [c]) + Render(ts[1..])
  }

  function Apply<S>(m: Machine<S>, s: S, ts: seq<Token>): S
    decreases |ts|
  {
    if ts == [] then s
    else Apply(m, match ts[0] case Open => m.open(s) case Close => m.close(s) case Other(c) => m.step(s, c), ts[1..])
  }

  /** A byte handed on never starts a tag. */
  predicate NoHiddenTag(ts: seq<Token>) {
    ts == [] ||
    ((ts[0].Other? ==> !(THINK_OPEN <= Render(ts)) && !(THINK_CLOSE <= Render(ts))) && NoHiddenTag(ts[1..]))
  }

  /** Cutting into tokens loses no byte and overlooks no tag. */
  lemma {:induction false} TokensFaithful(text: bytes)
    ensures Render(Tokens(text)) == text && NoHiddenTag(Tokens(text))
    decreases |text|
  {
    hide THINK_OPEN, THINK_CLOSE;
    TagLengths();
    if text != [] {
      var rest := if THINK_OPEN <= text then text[|THINK_OPEN|..] else if THINK_CLOSE <= text then text[|THINK_CLOSE|..] else text[1..];
      TokensFaithful(rest);
      assert Tokens(text)[1..] == Tokens(rest);
    }
  }

  /** A machine that never owns the text sees exactly the tokens of the whole text. */
  lemma {:induction false} DriveIsApply<S>(m: Machine<S>, s: S, text: bytes)
    requires forall t: S :: !m.owned(t)
    ensures Drive(m, s, text, true).0 == Apply(m, s, Tokens(text))
    decreases |text|
  {
    hide THINK_OPEN, THINK_CLOSE;
    TagLengths();
    if text == [] {
    } else if THINK_OPEN <= text {
      DriveIsApply(m, m.open(s), text[|THINK_OPEN|..]);
      assert Tokens(text)[1..] == Tokens(text[|THINK_OPEN|..]);
    } else if THINK_CLOSE <= text {
      DriveIsApply(m, m.close(s), text[|THINK_CLOSE|..]);
      assert Tokens(text)[1..] == Tokens(text[|THINK_CLOSE|..]);
    } else {
      DriveIsApply(m, m.step(s, text[0]), text[1..]);
      assert Tokens(text)[1..] == Tokens(text[1..]);
    }
  }
}
