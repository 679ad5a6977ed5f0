// The openers of tool calls in a text (ds4_agent.c:3267-3294, 3349-3508): which of them the
// display accepts, byte by byte, and the same in terms of the text alone.

module Openers {
  import opened Bytes
  import opened DsmlTags
  import opened TagSplitter
  import opened StreamDisplay
  import opened ToolText

  // ---------------------------------------------------------------- blanks

  /** The text without its blanks. */
  function Unblank(t: bytes): bytes {
    if t == [] then [] else (if IsBlank(t[0]) then [] else [t[0]]) + Unblank(t[1..])
  }

  lemma {:induction false} UnblankConcat(a: bytes, b: bytes)
    ensures Unblank(a + b) == Unblank(a) + Unblank(b)
  {
    if a == [] {
      assert a + b == b && [] + Unblank(b) == Unblank(b);
    } else {
      assert (a + b)[1..] == a[1..] + b;
      UnblankConcat(a[1..], b);
      Associative(if IsBlank(a[0]) then [] else [a[0]], Unblank(a[1..]), Unblank(b));
    }
  }

  lemma {:induction false} UnblankSame(t: bytes)
    requires NoBlank(t)
    ensures Unblank(t) == t
  {
    if t != [] { UnblankSame(t[1..]); }
  }

  lemma UnblankByte(c: byte)
    ensures Unblank([c]) == if IsBlank(c) then [] else [c]
  {
    assert [c][1..] == [];
  }

  // ---------------------------------------------------------------- accepted openers

  ghost predicate Ends(done: bytes, w: bytes) {
    |w| <= |done| && done[|done| - |w|..] == w
  }

  /** Bytes `i` to `j` are an opener; only right behind the closing think tag may blanks stand in it. */
  ghost predicate AcceptedAt(t: bytes, i: nat, j: nat) {
    i <= j <= |t| && Unblank(t[i..j]) in OPENERS && (NoBlank(t[i..j]) || EndsWith(t[..i], THINK_CLOSE))
  }

  ghost predicate HoldsOpener(t: bytes) {
    exists i: nat, j: nat :: AcceptedAt(t, i, j)
  }

  /** Whether the display accepts an opener in a text, with `held` held and possibly in the gap behind thinking. */
  predicate Reopens(held: bytes, gap: bool, t: bytes)
    decreases |t|
  {
    if t == [] then false
    else if THINK_OPEN <= t then Reopens([], false, t[|THINK_OPEN|..])
    else if THINK_CLOSE <= t then Reopens([], true, t[|THINK_CLOSE|..])
    else if gap && IsBlank(t[0]) then Reopens(held, gap, t[1..])
    else match StartMatch(held + [t[0]])
      case Whole(_) => true
      case Prefix => Reopens(held + [t[0]], gap, t[1..])
      case NoMatch => Reopens(if t[0] == LT then [LT] else [], false, t[1..])
  }

  /** One turn of it. */
  lemma ReopensStep(held: bytes, gap: bool, t: bytes)
    ensures t == [] ==> !Reopens(held, gap, t)
    ensures t != [] && THINK_OPEN <= t ==> Reopens(held, gap, t) == Reopens([], false, t[|THINK_OPEN|..])
    ensures t != [] && !(THINK_OPEN <= t) && THINK_CLOSE <= t ==> Reopens(held, gap, t) == Reopens([], true, t[|THINK_CLOSE|..])
    ensures t != [] && !(THINK_OPEN <= t) && !(THINK_CLOSE <= t) ==>
              Reopens(held, gap, t) ==
              if gap && IsBlank(t[0]) then Reopens(held, gap, t[1..])
              else match StartMatch(held + [t[0]])
                case Whole(_) => true
                case Prefix => Reopens(held + [t[0]], gap, t[1..])
                case NoMatch => Reopens(if t[0] == LT then [LT] else [], false, t[1..])
  {
    hide THINK_OPEN, THINK_CLOSE, StartMatch;
  }

  // ---------------------------------------------------------------- beginnings of openers

  lemma OpenersDiffer()
    ensures !(START <= INVOKE_OPENER) && !(MISSING_BAR_START <= INVOKE_OPENER) && !(INVOKE_OPENER <= START)
    ensures !(MISSING_BAR_INVOKE <= START) && !(MISSING_BAR_START <= START) && !(MISSING_BAR_INVOKE <= MISSING_BAR_START)
    ensures !(INVOKE_OPENER <= MISSING_BAR_START) && !(MISSING_BAR_INVOKE <= INVOKE_OPENER)
  {
    OpenerLengths();
    assert START[11] != INVOKE_OPENER[11];
    assert MISSING_BAR_START[1] != INVOKE_OPENER[1] && MISSING_BAR_START[1] != START[1] && MISSING_BAR_INVOKE[1] != START[1];
    assert MISSING_BAR_INVOKE[1] != INVOKE_OPENER[1] && MISSING_BAR_INVOKE[8] != MISSING_BAR_START[8];
  }

  lemma OpenerMatches(m: bytes)
    requires m in OPENERS
    ensures StartMatch(m).Whole? && (StartMatch(m).implicitInvoke <==> m == INVOKE_OPENER || m == MISSING_BAR_INVOKE)
  {
    hide START, MISSING_BAR_START, INVOKE_OPENER, MISSING_BAR_INVOKE;
    OpenerLengths();
    OpenersDiffer();
  }

  lemma EndShrinks(t: bytes, c: byte, m: bytes, j: nat)
    requires 0 < j <= |m| && EndsWith(t + [c], m[..j])
    ensures c == m[j - 1] && EndsWith(t, m[..j - 1])
  {
    var u := t + [c];
    assert u[|u| - j..] == m[..j];
    assert m[..j][j - 1] == u[|u| - 1];
    assert m[..j][..j - 1] == m[..j - 1];
    assert u[|u| - j..][..j - 1] == t[|t| - (j - 1)..];
  }

  /** Every beginning of an opener is one for the display. */
  lemma OpenerStarts(m: bytes, j: nat)
    requires m in OPENERS && 0 < j <= |m|
    ensures StartMatch(m[..j]) != NoMatch && (j == |m| ==> StartMatch(m[..j]).Whole?) && m[..j] == m[..j - 1] + [m[j - 1]]
  {
    hide START, MISSING_BAR_START, INVOKE_OPENER, MISSING_BAR_INVOKE;
    assert m[..|m|] == m;
    if j == |m| {
      OpenerMatches(m);
    }
  }

  lemma TagSpelling(tag: bytes)
    requires tag == THINK_OPEN || tag == THINK_CLOSE
    ensures |tag| > 2 && tag[0] == LT && StartMatch([LT] + [tag[1]]) == NoMatch && tag[1] != LT
    ensures forall k :: 2 <= k < |tag| ==> tag[k] != LT
  {
    TagLengths();
    OpenerLengths();
    assert [LT] + [tag[1]] == [LT, tag[1]];
    assert START[1] != tag[1] && MISSING_BAR_START[1] != tag[1] && INVOKE_OPENER[1] != tag[1] && MISSING_BAR_INVOKE[1] != tag[1];
  }

  /** A beginning of a think tag at the end of a text opens nothing. */
  lemma PartOpensNothing(held: bytes, gap: bool, buf: bytes)
    requires HeldBack(buf) && (held == [] || StartMatch(held) == Prefix)
    ensures !Reopens(held, gap, buf)
  {
    hide StartMatch, Reopens;
    MatchShape(held + [LT]);
    MatchShape([LT]);
    assert held == [] ==> held + [LT] == [LT];
    assert held != [] ==> (held + [LT])[|held|] == LT;
    PartBytes(buf);
    if THINK_OPEN <= buf || THINK_CLOSE <= buf { TagNotHeld(buf); }
    ReopensStep(held, gap, buf);
    ReopensStep([LT], gap, buf[1..]);
    ReopensStep([LT], false, buf[1..]);
    if |buf| > 1 { PlainOpensNothing(buf[2..]); }
  }

  lemma PartBytes(buf: bytes)
    requires HeldBack(buf)
    ensures buf[0] == LT && forall k :: 1 <= k < |buf| ==> buf[k] != LT && !IsBlank(buf[k])
    ensures |buf| > 1 ==> StartMatch([LT] + [buf[1]]) == NoMatch && !(THINK_OPEN <= buf[1..]) && !(THINK_CLOSE <= buf[1..])
  {
    TagLengths();
    TagSpelling(THINK_OPEN);
    TagSpelling(THINK_CLOSE);
  }

  lemma {:induction false} PlainOpensNothing(t: bytes)
    requires forall k :: 0 <= k < |t| ==> t[k] != LT
    ensures !Reopens([], false, t)
    decreases |t|
  {
    hide StartMatch, Reopens;
    ReopensStep([], false, t);
    if t != [] {
      OtherByte(t[0]);
      assert [] + [t[0]] == [t[0]];
      NotTagged(t);
      PlainOpensNothing(t[1..]);
    }
  }

  lemma NotTagged(t: bytes)
    requires t != [] && t[0] != LT
    ensures !(THINK_OPEN <= t) && !(THINK_CLOSE <= t)
  {
  }

  // ---------------------------------------------------------------- what the display accepts, in terms of the text

  /** An opener has begun behind a closing think tag that ends at `i`; its first `l` bytes are there. */
  ghost predicate Begun(a: bytes, i: nat, m: bytes, l: nat) {
    i <= |a| && EndsWith(a[..i], THINK_CLOSE) && m in OPENERS && l < |m| && Unblank(a[i..]) == m[..l]
  }

  /** An opener that has begun at the end of a text, without blanks, is held. */
  ghost predicate HeldWhole(held: bytes, a: bytes) {
    forall m, l: nat :: m in OPENERS && 0 < l < |m| && EndsWith(a, m[..l]) ==> held == m[..l]
  }

  /** Nothing has been accepted in `a`, and an opener begun at its end is held. */
  ghost predicate NothingYet(a: bytes, held: bytes, gap: bool) {
    && HeldWhole(held, a) && !HoldsOpener(a)
    && forall i: nat, m, l: nat :: Begun(a, i, m, l) ==> gap && held == m[..l]
  }

  /** The held bytes are the end of the text, as the display says. */
  ghost predicate HeldIs(a: bytes, held: bytes, gap: bool, w: bytes) {
    && Ends(a, w) && Unblank(w) == held
    && (if gap then EndsWith(a[..|a| - |w|], THINK_CLOSE) else NoBlank(w))
  }

  /** What is held after one more byte that opens nothing. */
  ghost predicate NextHeld(held: bytes, gap: bool, c: byte, next: bytes, gapNext: bool) {
    if gap && IsBlank(c) then next == held && gapNext
    else if StartMatch(held + [c]) == Prefix then next == held + [c] && gapNext == gap
    else StartMatch(held + [c]) == NoMatch && next == (if c == LT then [LT] else []) && !gapNext
  }

  lemma AcceptedStays(t: bytes, i: nat, j: nat, more: bytes)
    requires j <= |t|
    ensures AcceptedAt(t + more, i, j) <==> AcceptedAt(t, i, j)
  {
    hide Unblank, OPENERS, THINK_CLOSE;
    if i <= j { assert (t + more)[i..j] == t[i..j] && (t + more)[..i] == t[..i]; }
  }

  /** No opener ends in a blank. */
  lemma BlankEndsNone(a: bytes, c: byte, i: nat)
    requires IsBlank(c) && i <= |a| && !AcceptedAt(a, i, |a|)
    ensures !AcceptedAt(a + [c], i, |a| + 1)
  {
    hide Unblank, OPENERS, THINK_CLOSE;
    var t := a + [c];
    LastUnblank(a, c, i);
    assert t[i..|a| + 1] == t[i..] && t[i..][|a| - i] == c;
    assert a[i..|a|] == a[i..] && Unblank(a[i..]) + [] == Unblank(a[i..]);
  }

  lemma WordIsLong(t: bytes, i: nat, j: nat)
    requires AcceptedAt(t, i, j)
    ensures i < j
  {
    hide Unblank, OPENERS, THINK_CLOSE;
    OpenerBytes(Unblank(t[i..j]));
    NothingUnblanks();
    assert t[i..j] == [] || i < j;
  }

  /** An opener that ends with one more byte had all but that byte held. */
  lemma AcceptedEnd(a: bytes, c: byte, held: bytes, gap: bool, i: nat)
    requires NothingYet(a, held, gap) && AcceptedAt(a + [c], i, |a| + 1) && i <= |a| && !IsBlank(c)
    ensures held + [c] in OPENERS
  {
    hide Unblank, OPENERS, THINK_CLOSE;
    var t := a + [c];
    var m := Unblank(t[i..]);
    assert t[i..|a| + 1] == t[i..];
    OpenerBytes(m);
    LastUnblank(a, c, i);
    var l := |m| - 1;
    assert m == Unblank(a[i..]) + [c];
    assert m[..l] == Unblank(a[i..]);
    if NoBlank(t[i..]) {
      assert forall k :: 0 <= k < |a[i..]| ==> a[i..][k] == t[i..][k];
      UnblankSame(a[i..]);
      assert EndsWith(a, m[..l]);
    } else {
      assert Begun(a, i, m, l);
    }
  }

  lemma NothingUnblanks()
    ensures Unblank([]) == []
  {
  }

  lemma LastUnblank(a: bytes, c: byte, i: nat)
    requires i <= |a|
    ensures (a + [c])[i..] == a[i..] + [c] && (a + [c])[..i] == a[..i]
    ensures Unblank((a + [c])[i..]) == Unblank(a[i..]) + if IsBlank(c) then [] else [c]
  {
    hide Unblank;
    assert (a + [c])[i..] == a[i..] + [c];
    UnblankConcat(a[i..], [c]);
    UnblankByte(c);
  }

  /** An opener that goes on behind a closing think tag. */
  lemma BegunStep(a: bytes, held: bytes, gap: bool, c: byte, next: bytes, gapNext: bool, i: nat, m: bytes, l: nat)
    requires NothingYet(a, held, gap) && NextHeld(held, gap, c, next, gapNext)
    requires Begun(a + [c], i, m, l) && i <= |a|
    ensures gapNext && next == m[..l]
  {
    hide Unblank, OPENERS, THINK_CLOSE, HeldWhole, StartMatch, HoldsOpener;
    LastUnblank(a, c, i);
    if IsBlank(c) {
      assert Unblank(a[i..]) + [] == Unblank(a[i..]);
      assert Begun(a, i, m, l);
    } else {
      assert m[..l][|m[..l]| - 1] == c;
      assert m[..l][..l - 1] == Unblank(a[i..]);
      assert m[..l][..l - 1] == m[..l - 1];
      assert Begun(a, i, m, l - 1);
      OpenerStarts(m, l);
    }
  }

  /** One more byte that opens nothing. */
  lemma NothingStep(a: bytes, held: bytes, gap: bool, c: byte, next: bytes, gapNext: bool)
    requires NothingYet(a, held, gap) && NextHeld(held, gap, c, next, gapNext)
    requires EndsWith(a + [c], THINK_CLOSE) ==> next == []
    ensures NothingYet(a + [c], next, gapNext || EndsWith(a + [c], THINK_CLOSE))
  {
    hide Unblank, OPENERS, THINK_CLOSE, StartMatch, HeldWhole, AcceptedAt, NothingYet, NextHeld;
    var t := a + [c];
    HeldWholeNext(a, held, gap, c, next, gapNext);
    forall i: nat, j: nat ensures !AcceptedAt(t, i, j) {
      if j <= |a| {
        AcceptedStays(a, i, j, [c]);
        NotAccepted(a, held, gap, i, j);
      } else {
        NotAcceptedEnd(a, held, gap, c, next, gapNext, i, j);
      }
    }
    forall i: nat, m, l: nat | Begun(t, i, m, l)
      ensures (gapNext || EndsWith(t, THINK_CLOSE)) && next == m[..l]
    {
      if i <= |a| {
        BegunStep(a, held, gap, c, next, gapNext, i, m, l);
      } else {
        BegunAtEnd(t, m, l);
      }
    }
    NothingIs(t, next, gapNext || EndsWith(t, THINK_CLOSE));
  }

  lemma NothingIs(t: bytes, held: bytes, gap: bool)
    requires HeldWhole(held, t) && forall i: nat, j: nat :: !AcceptedAt(t, i, j)
    requires forall i: nat, m, l: nat :: Begun(t, i, m, l) ==> gap && held == m[..l]
    ensures NothingYet(t, held, gap)
  {
    hide HeldWhole, AcceptedAt, Begun;
  }

  lemma NotAccepted(a: bytes, held: bytes, gap: bool, i: nat, j: nat)
    requires NothingYet(a, held, gap)
    ensures !AcceptedAt(a, i, j)
  {
    hide AcceptedAt, HeldWhole, Begun;
  }

  lemma NotAcceptedEnd(a: bytes, held: bytes, gap: bool, c: byte, next: bytes, gapNext: bool, i: nat, j: nat)
    requires NothingYet(a, held, gap) && NextHeld(held, gap, c, next, gapNext) && j > |a|
    ensures !AcceptedAt(a + [c], i, j)
  {
    hide AcceptedAt, Begun, StartMatch, OPENERS, NothingYet;
    if AcceptedAt(a + [c], i, j) {
      WordIsLong(a + [c], i, j);
      AcceptedInside(a + [c], i, j);
      NotAccepted(a, held, gap, i, |a|);
      if IsBlank(c) {
        BlankEndsNone(a, c, i);
      } else {
        AcceptedEnd(a, c, held, gap, i);
        OpenerMatches(held + [c]);
      }
    }
  }

  lemma AcceptedInside(t: bytes, i: nat, j: nat)
    requires AcceptedAt(t, i, j)
    ensures i <= j <= |t|
  {
  }

  lemma HeldStepEnd(held: bytes, a: bytes, c: byte, next: bytes, m: bytes, l: nat)
    requires HeldWhole(held, a) && m in OPENERS && 0 < l <= |m| && EndsWith(a + [c], m[..l])
    requires IsBlank(c) || (StartMatch(held + [c]) == Prefix && next == held + [c])
             || (StartMatch(held + [c]) == NoMatch && next == if c == LT then [LT] else [])
    ensures l < |m| && next == m[..l]
  {
    hide OPENERS, EndsWith, StartMatch;
    EndShrinks(a, c, m, l);
    OpenerBytes(m);
    OpenerStarts(m, l);
    MatchShape(held + [c]);
    assert !IsBlank(m[l - 1]);
    if l == 1 {
      assert (held + [c])[|held|] == c;
      assert m[..1] == [LT];
      if held == [] { assert held + [c] == m[..1]; }
    }
  }

  lemma HeldWholeNext(a: bytes, held: bytes, gap: bool, c: byte, next: bytes, gapNext: bool)
    requires NothingYet(a, held, gap) && NextHeld(held, gap, c, next, gapNext)
    ensures HeldWhole(next, a + [c])
  {
    hide Begun, StartMatch, HoldsOpener, EndsWith, OPENERS;
    forall m, l: nat | m in OPENERS && 0 < l < |m| && EndsWith(a + [c], m[..l]) ensures next == m[..l] {
      HeldStepEnd(held, a, c, next, m, l);
    }
  }

  lemma BegunAtEnd(t: bytes, m: bytes, l: nat)
    requires Begun(t, |t|, m, l)
    ensures EndsWith(t, THINK_CLOSE) && m[..l] == []
  {
    hide OPENERS, THINK_CLOSE;
    assert t[..|t|] == t && t[|t|..] == [];
  }

  // ---------------------------------------------------------------- think tags

  /** Behind a byte that is neither `<` nor `>`, with nothing held, nothing begins. */
  lemma PlainNext(c: byte)
    requires c != LT
    ensures NextHeld([], false, c, [], false)
  {
    hide StartMatch;
    OtherByte(c);
    assert [] + [c] == [c];
  }

  lemma EndByte(a: bytes, c: byte)
    ensures c != GT ==> !EndsWith(a + [c], THINK_CLOSE)
  {
    var t := a + [c];
    if EndsWith(t, THINK_CLOSE) { assert t[|t| - 8..][7] == THINK_CLOSE[7]; }
  }

  lemma {:induction false} NothingBytes(a: bytes, bs: bytes)
    requires NothingYet(a, [], false) && forall k :: 0 <= k < |bs| ==> bs[k] != LT && bs[k] != GT
    ensures NothingYet(a + bs, [], false)
    decreases |bs|
  {
    hide NothingYet, NextHeld, EndsWith, THINK_CLOSE;
    if bs == [] {
      assert a + bs == a;
    } else {
      PlainNext(bs[0]);
      EndByte(a, bs[0]);
      NothingStep(a, [], false, bs[0], [], false);
      NothingBytes(a + [bs[0]], bs[1..]);
      assert a + bs == a + [bs[0]] + bs[1..];
    }
  }

  lemma TagIs(tag: bytes)
    requires tag == THINK_OPEN || tag == THINK_CLOSE
    ensures |tag| > 2 && tag[0] == LT && tag == [LT, tag[1]] + tag[2..|tag| - 1] + [GT]
    ensures forall k :: 1 <= k < |tag| - 1 ==> tag[k] != LT && tag[k] != GT && !IsBlank(tag[k])
  {
  }

  lemma TagEnds(a: bytes, tag: bytes)
    requires tag == THINK_OPEN || tag == THINK_CLOSE
    ensures EndsWith(a + tag, THINK_CLOSE) <==> tag == THINK_CLOSE
  {
    var t := a + tag;
    TagLengths();
    assert t[|t| - |tag|..] == tag;
    if EndsWith(t, THINK_CLOSE) { assert t[|t| - 7] == THINK_CLOSE[1]; }
    assert |THINK_OPEN| == 7 && THINK_OPEN[0] != THINK_CLOSE[1];
  }

  lemma OpenNext(held: bytes, gap: bool) returns (gapNext: bool)
    requires held == [] || StartMatch(held) == Prefix
    ensures NextHeld(held, gap, LT, [LT], gapNext)
  {
    hide StartMatch;
    MatchShape(held + [LT]);
    MatchShape([LT]);
    assert held == [] ==> held + [LT] == [LT];
    assert held != [] ==> (held + [LT])[|held|] == LT;
    gapNext := gap && held == [];
  }

  lemma SecondNext(gap: bool, tag: bytes)
    requires tag == THINK_OPEN || tag == THINK_CLOSE
    ensures |tag| > 2 && NextHeld([LT], gap, tag[1], [], false)
  {
    hide StartMatch, THINK_OPEN, THINK_CLOSE;
    TagIs(tag);
    TagSpelling(tag);
  }

  /** A think tag completes nothing and leaves nothing held. */
  lemma NothingTag(a: bytes, held: bytes, gap: bool, tag: bytes)
    requires NothingYet(a, held, gap) && (held == [] || StartMatch(held) == Prefix)
    requires tag == THINK_OPEN || tag == THINK_CLOSE
    ensures NothingYet(a + tag, [], tag == THINK_CLOSE)
  {
    hide NothingYet, NextHeld, EndsWith, THINK_OPEN, THINK_CLOSE, StartMatch;
    TagIs(tag);
    var g := OpenNext(held, gap);
    EndByte(a, LT);
    NothingStep(a, held, gap, LT, [LT], g);
    var b := a + [LT];
    SecondNext(g, tag);
    EndByte(b, tag[1]);
    NothingStep(b, [LT], g, tag[1], [], false);
    var c := b + [tag[1]];
    var mid := tag[2..|tag| - 1];
    NothingBytes(c, mid);
    PlainNext(GT);
    NothingStep(c + mid, [], false, GT, [], false);
    assert a + tag == c + mid + [GT];
    TagEnds(a, tag);
  }

  /** No think tag starts in what has been read and ends in what is to come. */
  ghost predicate NoSplit(a: bytes, r: bytes) {
    forall l: nat :: (0 < l < |THINK_OPEN| ==> !Split(a, r, THINK_OPEN, l)) && (0 < l < |THINK_CLOSE| ==> !Split(a, r, THINK_CLOSE, l))
  }

  ghost predicate Split(a: bytes, r: bytes, tag: bytes, l: nat) {
    l <= |tag| && EndsWith(a, tag[..l]) && tag[l..] <= r
  }

  lemma NoSplitByte(a: bytes, r: bytes)
    requires NoSplit(a, r) && r != [] && !(THINK_OPEN <= r) && !(THINK_CLOSE <= r)
    ensures NoSplit(a + [r[0]], r[1..]) && !EndsWith(a + [r[0]], THINK_CLOSE)
  {
    hide THINK_OPEN, THINK_CLOSE;
    TagLengths();
    forall l: nat ensures 0 < l < |THINK_OPEN| ==> !Split(a + [r[0]], r[1..], THINK_OPEN, l) {
      NoSplitAt(a, r, THINK_OPEN, l);
    }
    forall l: nat ensures 0 < l <= |THINK_CLOSE| ==> !Split(a + [r[0]], r[1..], THINK_CLOSE, l) {
      NoSplitAt(a, r, THINK_CLOSE, l);
    }
    assert THINK_CLOSE[..|THINK_CLOSE|] == THINK_CLOSE && THINK_CLOSE[|THINK_CLOSE|..] == [];
    assert !Split(a + [r[0]], r[1..], THINK_CLOSE, |THINK_CLOSE|);
  }

  lemma NoSplitAt(a: bytes, r: bytes, tag: bytes, l: nat)
    requires r != [] && !(tag <= r) && forall k: nat :: 0 < k < |tag| ==> !Split(a, r, tag, k)
    ensures 0 < l <= |tag| ==> !Split(a + [r[0]], r[1..], tag, l)
  {
    hide Split;
    if 0 < l <= |tag| && Split(a + [r[0]], r[1..], tag, l) { SplitByte(a, r, tag, l); }
  }

  lemma SplitByte(a: bytes, r: bytes, tag: bytes, l: nat)
    requires 0 < l <= |tag| && r != [] && Split(a + [r[0]], r[1..], tag, l)
    ensures if l == 1 then tag <= r else Split(a, r, tag, l - 1)
  {
    EndShrinks(a, r[0], tag, l);
    assert tag[l - 1..] == [tag[l - 1]] + tag[l..];
    assert r == [r[0]] + r[1..];
  }

  lemma NoSplitTag(a: bytes, tag: bytes, r: bytes)
    requires tag == THINK_OPEN || tag == THINK_CLOSE
    ensures NoSplit(a + tag, r)
  {
    hide THINK_OPEN, THINK_CLOSE;
    TagIs(tag);
    var t := a + tag;
    assert t[|t| - 1] == GT;
    forall l: nat ensures 0 < l < |THINK_OPEN| ==> !Split(t, r, THINK_OPEN, l) {
      if 0 < l < |THINK_OPEN| { PartEnds(t, THINK_OPEN, l); }
    }
    forall l: nat ensures 0 < l < |THINK_CLOSE| ==> !Split(t, r, THINK_CLOSE, l) {
      if 0 < l < |THINK_CLOSE| { PartEnds(t, THINK_CLOSE, l); }
    }
  }

  lemma PartEnds(t: bytes, tag: bytes, l: nat)
    requires (tag == THINK_OPEN || tag == THINK_CLOSE) && 0 < l < |tag| && t != [] && t[|t| - 1] == GT
    ensures !EndsWith(t, tag[..l])
  {
    hide THINK_OPEN, THINK_CLOSE;
    TagIs(tag);
    assert tag[l - 1] != GT;
    if |tag[..l]| <= |t| { assert t[|t| - l..][l - 1] == t[|t| - 1]; }
  }

  // ---------------------------------------------------------------- the scan in terms of the text

  /** A byte that completes an opener. */
  lemma WholeIsAccepted(a: bytes, held: bytes, gap: bool, w: bytes, c: byte, r: bytes)
    requires HeldIs(a, held, gap, w) && StartMatch(held + [c]).Whole?
    ensures HoldsOpener(a + ([c] + r))
  {
    hide Unblank, OPENERS, THINK_CLOSE, StartMatch;
    MatchShape(held + [c]);
    assert (held + [c])[|held|] == c;
    var i := |a| - |w|;
    var t := a + [c];
    LastUnblank(a, c, i);
    assert t[i..|t|] == t[i..] == w + [c];
    assert AcceptedAt(t, i, |t|);
    AcceptedStays(t, i, |t|, r);
    assert a + ([c] + r) == t + r;
  }

  lemma HeldStep(a: bytes, held: bytes, gap: bool, w: bytes, c: byte, next: bytes, gapNext: bool) returns (v: bytes)
    requires HeldIs(a, held, gap, w) && NextHeld(held, gap, c, next, gapNext)
    ensures HeldIs(a + [c], next, gapNext, v)
  {
    hide Unblank, THINK_CLOSE, StartMatch;
    NothingUnblanks();
    UnblankByte(c);
    UnblankByte(LT);
    UnblankConcat(w, [c]);
    MatchShape(held + [c]);
    assert (held + [c])[|held|] == c;
    var t := a + [c];
    assert t[..|a| - |w|] == a[..|a| - |w|] && t[|a| - |w|..] == w + [c] && t[|a|..] == [c];
    assert held + [] == held;
    if (gap && IsBlank(c)) || StartMatch(held + [c]) == Prefix {
      v := w + [c];
    } else {
      v := if c == LT then [LT] else [];
    }
  }

  lemma NextPrefix(held: bytes, gap: bool, c: byte, next: bytes, gapNext: bool)
    requires NextHeld(held, gap, c, next, gapNext) && (held == [] || StartMatch(held) == Prefix)
    ensures next == [] || StartMatch(next) == Prefix
  {
    hide StartMatch;
    MatchShape([LT]);
  }

  /** A text is accepted from any point on exactly when an opener ends behind that point. */
  lemma {:induction false} ReopensExactly(a: bytes, held: bytes, gap: bool, w: bytes, r: bytes)
    requires NothingYet(a, held, gap) && HeldIs(a, held, gap, w) && NoSplit(a, r) && (held == [] || StartMatch(held) == Prefix)
    ensures Reopens(held, gap, r) <==> HoldsOpener(a + r)
    decreases |r|
  {
    hide *;
    TagLengths();
    ReopensStep(held, gap, r);
    if r == [] {
      assert a + r == a;
      NothingHolds(a, held, gap);
    } else if THINK_OPEN <= r {
      ReopensTag(a, held, gap, THINK_OPEN, r);
    } else if THINK_CLOSE <= r {
      ReopensTag(a, held, gap, THINK_CLOSE, r);
    } else {
      var c := r[0];
      var rest := r[1..];
      assert r == [c] + rest;
      if !(gap && IsBlank(c)) && StartMatch(held + [c]).Whole? {
        WholeIsAccepted(a, held, gap, w, c, rest);
      } else {
        var next, gapNext := Next(held, gap, c);
        NoSplitByte(a, r);
        NothingStep(a, held, gap, c, next, gapNext);
        var v := HeldStep(a, held, gap, w, c, next, gapNext);
        NextPrefix(held, gap, c, next, gapNext);
        ReopensExactly(a + [c], next, gapNext, v, rest);
        assert a + r == a + [c] + rest;
      }
    }
  }

  lemma NothingHolds(a: bytes, held: bytes, gap: bool)
    requires NothingYet(a, held, gap)
    ensures !HoldsOpener(a)
  {
    hide HoldsOpener, HeldWhole, Begun;
  }

  lemma Next(held: bytes, gap: bool, c: byte) returns (next: bytes, gapNext: bool)
    requires (gap && IsBlank(c)) || !StartMatch(held + [c]).Whole?
    ensures NextHeld(held, gap, c, next, gapNext)
    ensures gap && IsBlank(c) ==> next == held && gapNext == gap
    ensures !(gap && IsBlank(c)) && StartMatch(held + [c]) == Prefix ==> next == held + [c] && gapNext == gap
    ensures !(gap && IsBlank(c)) && StartMatch(held + [c]) == NoMatch ==> next == (if c == LT then [LT] else []) && !gapNext
  {
    hide StartMatch;
    if gap && IsBlank(c) { next, gapNext := held, gap; }
    else if StartMatch(held + [c]) == Prefix { next, gapNext := held + [c], gap; }
    else { next, gapNext := if c == LT then [LT] else [], false; }
  }

  lemma {:induction false} ReopensTag(a: bytes, held: bytes, gap: bool, tag: bytes, r: bytes)
    requires NothingYet(a, held, gap) && (held == [] || StartMatch(held) == Prefix)
    requires (tag == THINK_OPEN || tag == THINK_CLOSE) && tag <= r
    ensures Reopens([], tag == THINK_CLOSE, r[|tag|..]) <==> HoldsOpener(a + r)
    decreases |r|, 0
  {
    hide *;
    TagIs(tag);
    var rest := r[|tag|..];
    NothingTag(a, held, gap, tag);
    NoSplitTag(a, tag, rest);
    TagEnds(a, tag);
    HeldNothing(a + tag, tag == THINK_CLOSE);
    ReopensExactly(a + tag, [], tag == THINK_CLOSE, [], rest);
    assert a + r == a + tag + rest;
  }

  lemma HeldNothing(a: bytes, gap: bool)
    requires gap ==> EndsWith(a, THINK_CLOSE)
    ensures HeldIs(a, [], gap, [])
  {
    hide THINK_CLOSE;
    assert a[..|a|] == a;
  }

  /** A text behind finished calls is accepted exactly when it holds an opener. */
  lemma ReopensIs(t: bytes)
    ensures Reopens([], false, t) <==> HoldsOpener(t)
  {
    hide *;
    NothingInNothing();
    HeldNothing([], false);
    NoSplitNothing(t);
    ReopensExactly([], [], false, [], t);
    assert [] + t == t;
  }

  lemma NoSplitNothing(r: bytes)
    ensures NoSplit([], r)
  {
    hide THINK_OPEN, THINK_CLOSE;
  }

  lemma NothingInNothing()
    ensures NothingYet([], [], false)
  {
    hide THINK_CLOSE, OPENERS, Unblank;
    TagLengths();
    forall i: nat, j: nat ensures !AcceptedAt([], i, j) {
      if AcceptedAt([], i, j) { WordIsLong([], i, j); }
    }
    forall m | m in OPENERS ensures |m| > 1 {
      OpenerBytes(m);
    }
  }
}
