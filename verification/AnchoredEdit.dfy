// Finding and replacing the old text of an edit (ds4_agent.c:5900-5991, 6003-6009,
// 6094-6143, 6240-6318): exact unique text, or a head and a tail around [upto].

module AnchoredEdit {
  import opened Bytes
  import opened LineShift

  const UPTO: bytes := Ascii("[upto]")

  predicate Occurs(data: bytes, needle: bytes, i: nat) {
    i <= |data| && needle <= data[i..]
  }

  /** `needle` stands at `i` and nowhere else from `from` on, overlaps counted. */
  ghost predicate OnlyAt(data: bytes, needle: bytes, from: nat, i: nat) {
    from <= i && Occurs(data, needle, i) && forall k :: from <= k && Occurs(data, needle, k) ==> k == i
  }

  // ---------------------------------------------------------------- searching

  /** `agent_memmem_simple`. */
  method MemMem(hay: bytes, needle: bytes) returns (found: Option<nat>)
    ensures found.Some? ==> Occurs(hay, needle, found.value) && forall k :: 0 <= k < found.value ==> !Occurs(hay, needle, k)
    ensures found.None? ==> forall k: nat :: !Occurs(hay, needle, k)
  {
    if needle == [] { return Some(0); }
    if |needle| > |hay| { return None; }
    var last := |hay| - |needle|;
    for i := 0 to last + 1
      invariant forall k :: 0 <= k < i ==> !Occurs(hay, needle, k)
    {
      assert hay[i..][..|needle|] == hay[i..i + |needle|] && hay[i..][0] == hay[i];
      if hay[i] == needle[0] && hay[i..i + |needle|] == needle { return Some(i); }
    }
    return None;
  }

  lemma OccursShift(data: bytes, needle: bytes, from: nat, k: nat)
    requires from <= |data|
    ensures Occurs(data[from..], needle, k) <==> Occurs(data, needle, from + k)
  {
    if from + k <= |data| { assert data[from..][k..] == data[from + k..]; }
  }

  lemma NoneBefore(data: bytes, needle: bytes, from: nat, n: nat)
    requires from <= |data| && forall k: nat :: k < n ==> !Occurs(data[from..], needle, k)
    ensures forall m: nat :: from <= m < from + n ==> !Occurs(data, needle, m)
  {
    forall m: nat | from <= m < from + n ensures !Occurs(data, needle, m) {
      OccursShift(data, needle, from, m - from);
    }
  }

  /** `agent_find_unique_after`; with start 0 it is `agent_find_unique`. */
  method FindUniqueAfter(data: bytes, start: nat, needle: bytes) returns (found: Option<nat>)
    requires start <= |data|
    ensures forall i: nat :: found == Some(i) <==> needle != [] && OnlyAt(data, needle, start, i)
  {
    if needle == [] { return None; }
    var first := MemMem(data[start..], needle);
    if first.None? {
      NoneBefore(data, needle, start, |data| + 1);
      return None;
    }
    var at := start + first.value;
    OccursShift(data, needle, start, first.value);
    NoneBefore(data, needle, start, first.value);
    var after := at + 1;
    var second := MemMem(data[after..], needle);
    if second.Some? {
      OccursShift(data, needle, after, second.value);
      return None;
    }
    NoneBefore(data, needle, after, |data| + 1);
    return Some(at);
  }

  // ---------------------------------------------------------------- anchors

  predicate HasNonSpace(s: bytes) {
    exists i :: 0 <= i < |s| && !IsSpace(s[i])
  }

  /** The tail without the line breaks at its start. */
  function StripBreaks(s: bytes): bytes {
    if s != [] && (s[0] == LF || s[0] == CR) then StripBreaks(s[1..]) else s
  }

  /** How an old text asks to be found. */
  datatype Anchors = Plain(text: bytes) | HeadTail(head: bytes, tail: bytes) | Malformed

  function AnchorsOf(old_: bytes): Anchors {
    match FindSub(old_, UPTO)
    case None => if old_ == [] then Malformed else Plain(old_)
    case Some(k) =>
      var after := old_[k + |UPTO|..];
      var tail := StripBreaks(after);
      if FindSub(after, UPTO).Some? || k == 0 || !HasNonSpace(tail) then Malformed
      else HeadTail(old_[..k], tail)
  }

  datatype Found = Found(start: nat, len: nat, anchored: bool)

  /** The anchor rules: one place for a plain text; one place for a head and, behind it, one for a tail. */
  ghost predicate Obeys(data: bytes, a: Anchors, f: Found) {
    match a
    case Malformed => false
    case Plain(text) => !f.anchored && f.len == |text| && OnlyAt(data, text, 0, f.start)
    case HeadTail(head, tail) =>
      && f.anchored && f.len >= |head| + |tail|
      && OnlyAt(data, head, 0, f.start)
      && OnlyAt(data, tail, f.start + |head|, f.start + f.len - |tail|)
  }

  /** The head and the tail of an anchored old text, each in its one place. */
  method FindAnchored(data: bytes, head: bytes, tail: bytes) returns (found: Option<Found>)
    requires tail != []
    ensures forall f: Found :: found == Some(f) <==> head != [] && Obeys(data, HeadTail(head, tail), f)
  {
    var h := FindUniqueAfter(data, 0, head);
    if h.None? {
      assert forall i: nat :: !(head != [] && OnlyAt(data, head, 0, i));
      return None;
    }
    assert OnlyAt(data, head, 0, h.value);
    var end := h.value + |head|;
    var t := FindUniqueAfter(data, end, tail);
    if t.None? {
      assert forall i: nat :: !OnlyAt(data, tail, end, i);
      return None;
    }
    assert OnlyAt(data, tail, end, t.value);
    return Some(Found(h.value, t.value - h.value + |tail|, true));
  }

  /** `agent_edit_find_old_span`: it succeeds exactly when a span obeys the rules, with that span. */
  method FindOldSpan(data: bytes, old_: bytes) returns (found: Option<Found>)
    ensures forall f: Found :: found == Some(f) <==> Obeys(data, AnchorsOf(old_), f)
  {
    hide UPTO, FindSub, StripBreaks, OnlyAt;
    var upto := FindSub(old_, UPTO);
    if upto.None? {
      var at := FindUniqueAfter(data, 0, old_);
      if at.None? {
        assert forall i: nat :: !(old_ != [] && OnlyAt(data, old_, 0, i));
        return None;
      }
      assert OnlyAt(data, old_, 0, at.value);
      return Some(Found(at.value, |old_|, false));
    }
    var after := old_[upto.value + |UPTO|..];
    if FindSub(after, UPTO).Some? { return None; }
    var tail := SkipBreaks(after);
    var solid := SpanHasNonSpace(tail);
    if !solid { return None; }
    found := FindAnchored(data, old_[..upto.value], tail);
    assert old_[..upto.value] == [] <==> upto.value == 0;
  }

  method SkipBreaks(s: bytes) returns (tail: bytes)
    ensures tail == StripBreaks(s)
  {
    tail := s;
    while |tail| > 0 && (tail[0] == LF || tail[0] == CR)
      invariant StripBreaks(tail) == StripBreaks(s)
      decreases |tail|
    {
      tail := tail[1..];
    }
  }

  method SpanHasNonSpace(s: bytes) returns (found: bool)
    ensures found == HasNonSpace(s)
  {
    for i := 0 to |s|
      invariant forall k :: 0 <= k < i ==> IsSpace(s[k])
    {
      if !IsSpace(s[i]) { return true; }
    }
    return false;
  }

  // ---------------------------------------------------------------- soundness

  /** From `s` to `e` the data starts with the head and ends with the tail, which begins at or after the head's end. */
  predicate IsSpan(data: bytes, head: bytes, tail: bytes, s: nat, e: nat) {
    e >= s + |head| + |tail| && Occurs(data, head, s) && Occurs(data, tail, e - |tail|)
  }

  ghost predicate OnlySpan(data: bytes, head: bytes, tail: bytes, s: nat, e: nat) {
    IsSpan(data, head, tail, s, e) && forall s': nat, e': nat :: IsSpan(data, head, tail, s', e') ==> s' == s && e' == e
  }

  /** An anchored span obeys the rules exactly when it is the only span of its anchors and the head is unique. */
  lemma AnchoredSpanExact(data: bytes, head: bytes, tail: bytes, f: Found)
    requires head != [] && tail != []
    ensures Obeys(data, HeadTail(head, tail), f) <==>
      f.anchored && OnlySpan(data, head, tail, f.start, f.start + f.len) && OnlyAt(data, head, 0, f.start)
    ensures Obeys(data, HeadTail(head, tail), f) ==> f.start + f.len <= |data|
  {
    var s, e := f.start, f.start + f.len;
    if Obeys(data, HeadTail(head, tail), f) {
      forall s': nat, e': nat | IsSpan(data, head, tail, s', e') ensures s' == s && e' == e {
        assert Occurs(data, head, s') && Occurs(data, tail, e' - |tail|);
      }
    }
    if f.anchored && OnlySpan(data, head, tail, s, e) && OnlyAt(data, head, 0, s) {
      forall k | s + |head| <= k && Occurs(data, tail, k) ensures k == e - |tail| {
        assert IsSpan(data, head, tail, s, k + |tail|);
      }
    }
  }

  // ---------------------------------------------------------------- replacing

  /** `agent_tool_edit` on the content of the file: the new content, if the old text is found. */
  ghost predicate EditsTo(data: bytes, old_: bytes, new_: bytes, result: bytes) {
    exists f: Found :: Obeys(data, AnchorsOf(old_), f) && f.start + f.len <= |data| && result == Splice(data, f.start, f.len, new_)
  }

  lemma ObeysInside(data: bytes, old_: bytes, f: Found)
    requires Obeys(data, AnchorsOf(old_), f)
    ensures f.start + f.len <= |data|
  {
  }

  /** The file after an edit and what is reported about its lines. */
  method EditFile(data: bytes, old_: bytes, new_: bytes) returns (result: Option<(bytes, Option<Effect>)>)
    ensures forall out :: EditsTo(data, old_, new_, out) <==> result.Some? && result.value.0 == out
    ensures result.Some? ==>
              exists f: Found ::
                && Obeys(data, AnchorsOf(old_), f) && f.start + f.len <= |data|
                && result.value.0 == Splice(data, f.start, f.len, new_)
                && result.value.1 == if data == [] then None else Some(LineEffect(data, result.value.0, f.start, f.len))
  {
    hide AnchorsOf, LineEffect;
    var found := FindOldSpan(data, old_);
    if found.None? { return None; }
    var f := found.value;
    ObeysInside(data, old_, f);
    var out := data[..f.start] + new_ + data[f.start + f.len..];
    assert out == Splice(data, f.start, f.len, new_);
    EditIs(data, old_, new_, f);
    var effect := OldNewLineEffect(data, out, f.start, f.len);
    return Some((out, effect));
  }

  lemma ObeysOnce(data: bytes, a: Anchors, f: Found, g: Found)
    requires Obeys(data, a, f) && Obeys(data, a, g)
    ensures f == g
  {
    hide Occurs;
    match a
    case Malformed =>
    case Plain(text) => assert Occurs(data, text, f.start);
    case HeadTail(head, tail) =>
      assert Occurs(data, head, f.start);
      assert Occurs(data, tail, f.start + f.len - |tail|);
  }

  /** At most one result: an edit is a function of the file. */
  lemma EditIsDeterministic(data: bytes, old_: bytes, new_: bytes, a: bytes, b: bytes)
    requires EditsTo(data, old_, new_, a) && EditsTo(data, old_, new_, b)
    ensures a == b
  {
    hide AnchorsOf, Splice, Obeys;
    var f: Found :| Obeys(data, AnchorsOf(old_), f) && f.start + f.len <= |data| && a == Splice(data, f.start, f.len, new_);
    var g: Found :| Obeys(data, AnchorsOf(old_), g) && g.start + g.len <= |data| && b == Splice(data, g.start, g.len, new_);
    ObeysOnce(data, AnchorsOf(old_), f, g);
  }

  /** Stripping line breaks leaves an end of the text. */
  lemma {:induction false} StripIsEnd(s: bytes)
    ensures var t := StripBreaks(s); |t| <= |s| && s[|s| - |t|..] == t
  {
    if s != [] && (s[0] == LF || s[0] == CR) {
      StripIsEnd(s[1..]);
      var t := StripBreaks(s[1..]);
      assert s[1..][|s| - 1 - |t|..] == s[|s| - |t|..];
    }
  }

  /** What is stripped is exactly the line breaks at the start. */
  lemma {:induction false} StripIsExact(s: bytes)
    ensures var t := StripBreaks(s); var n := |s| - |t|;
      && n >= 0 && s == s[..n] + t && (forall i :: 0 <= i < n ==> s[i] == LF || s[i] == CR)
      && (t != [] ==> t[0] != LF && t[0] != CR)
  {
    if s != [] && (s[0] == LF || s[0] == CR) {
      StripIsExact(s[1..]);
      assert s == [s[0]] + s[1..];
    }
  }

  /**
   * An anchored text is its head, the marker, line breaks and its tail: the one way to read
   * it, with one marker, a head, and a tail that starts with no line break and is not blank.
   */
  lemma AnchoredText(text: bytes)
    requires AnchorsOf(text).HeadTail?
    ensures var a := AnchorsOf(text); var n := |text| - |a.head| - |UPTO| - |a.tail|;
      && n >= 0 && a.head != [] && a.tail != [] && HasNonSpace(a.tail) && a.tail[0] != LF && a.tail[0] != CR
      && text[..|a.head|] == a.head && text[|text| - |a.tail|..] == a.tail
      && FirstAt(text, UPTO, |a.head|) && FindSub(text[|a.head| + |UPTO|..], UPTO).None?
      && (forall i :: |a.head| + |UPTO| <= i < |text| - |a.tail| ==> text[i] == LF || text[i] == CR)
  {
    hide UPTO, StripBreaks, FindSub, HasNonSpace;
    var k := FindSub(text, UPTO).value;
    FindSubExact(text, UPTO, k);
    var after := text[k + |UPTO|..];
    StripIsEnd(after);
    StripIsExact(after);
    var tail := StripBreaks(after);
    assert after[|after| - |tail|..] == text[|text| - |tail|..];
    assert text[k..][..|UPTO|] == text[k..k + |UPTO|];
    SolidIsNotEmpty(tail);
    forall i | k + |UPTO| <= i < |text| - |tail| ensures text[i] == LF || text[i] == CR {
      assert text[i] == after[i - k - |UPTO|];
    }
  }

  lemma SolidIsNotEmpty(s: bytes)
    requires HasNonSpace(s)
    ensures s != []
  {
  }

  /** An old text with one marker, a head and a solid tail is read that way, whatever line breaks follow the marker. */
  lemma AnchorsAreRead(head: bytes, breaks: bytes, tail: bytes)
    requires head != [] && tail != [] && HasNonSpace(tail) && tail[0] != LF && tail[0] != CR
    requires forall i :: 0 <= i < |breaks| ==> breaks[i] == LF || breaks[i] == CR
    requires FirstAt(head + (UPTO + (breaks + tail)), UPTO, |head|) && FindSub(breaks + tail, UPTO).None?
    ensures AnchorsOf(head + (UPTO + (breaks + tail))) == HeadTail(head, tail)
  {
    hide UPTO, FindSub, HasNonSpace, StripBreaks, FirstAt;
    var rest := breaks + tail;
    var text := head + (UPTO + rest);
    FindSubExact(text, UPTO, |head|);
    assert text[|head|..] == UPTO + rest && text[..|head|] == head;
    assert text[|head| + |UPTO|..] == rest;
    StripsAll(breaks, tail);
  }

  lemma {:induction false} StripsAll(breaks: bytes, tail: bytes)
    requires tail != [] && tail[0] != LF && tail[0] != CR
    requires forall i :: 0 <= i < |breaks| ==> breaks[i] == LF || breaks[i] == CR
    ensures StripBreaks(breaks + tail) == tail
  {
    if breaks == [] {
      assert breaks + tail == tail;
    } else {
      assert (breaks + tail)[1..] == breaks[1..] + tail;
      StripsAll(breaks[1..], tail);
    }
  }

  lemma OccursInside(out: bytes, s: nat, text: bytes, from: nat, part: bytes)
    requires Occurs(out, text, s) && from + |part| <= |text| && text[from..from + |part|] == part
    ensures Occurs(out, part, s + from)
  {
    assert out[s + from..][..|part|] == out[s..][..|text|][from..from + |part|];
  }

  /** Where a text stands as it is written, the edit that looks for it finds exactly that place, if any. */
  lemma FindsItself(out: bytes, s: nat, text: bytes, g: Found)
    requires Occurs(out, text, s) && Obeys(out, AnchorsOf(text), g)
    ensures g.start == s && g.len == |text|
  {
    hide UPTO, FindSub, StripBreaks, Occurs;
    match AnchorsOf(text) {
      case Plain(t) =>
      case HeadTail(head, tail) =>
        AnchoredText(text);
        OccursInside(out, s, text, 0, head);
        assert text[|text| - |tail|..|text| - |tail| + |tail|] == text[|text| - |tail|..];
        OccursInside(out, s, text, |text| - |tail|, tail);
    }
  }

  /**
   * Undo: the edit with old and new exchanged gives the file back exactly when the text
   * it replaced was the old text as it is written, as it is without a marker in it, and
   * the exchanged edit succeeds at all; without a marker in the new text it does exactly
   * when that is not empty and occurs once in the edited file.
   */
  lemma EditUndoes(data: bytes, old_: bytes, new_: bytes, f: Found, out: bytes)
    requires Obeys(data, AnchorsOf(old_), f) && f.start + f.len <= |data| && out == Splice(data, f.start, f.len, new_)
    ensures EditsTo(out, new_, old_, data) <==>
              data[f.start..f.start + f.len] == old_ && exists g: Found :: Obeys(out, AnchorsOf(new_), g)
    ensures FindSub(old_, UPTO).None? ==> data[f.start..f.start + f.len] == old_
    ensures FindSub(new_, UPTO).None? ==>
              ((exists g: Found :: Obeys(out, AnchorsOf(new_), g)) <==> new_ != [] && exists i :: OnlyAt(out, new_, 0, i))
  {
    hide UPTO, FindSub, AnchorsOf;
    var s := f.start;
    var was := data[s..s + f.len];
    assert data[s..][..|was|] == was;
    SpliceBack(data, s, was, new_, out);
    if exists g: Found :: Obeys(out, AnchorsOf(new_), g) {
      var g: Found :| Obeys(out, AnchorsOf(new_), g);
      FindsItself(out, s, new_, g);
      EditIs(out, new_, old_, g);
      SpliceDiffers(out, s, |new_|, was, old_);
    }
    PlainSpan(data, old_, f);
    if FindSub(new_, UPTO).None? { PlainFinds(out, new_); }
  }

  /** The result of an edit whose span is known. */
  lemma EditIs(data: bytes, old_: bytes, new_: bytes, f: Found)
    requires Obeys(data, AnchorsOf(old_), f) && f.start + f.len <= |data|
    ensures forall out :: EditsTo(data, old_, new_, out) <==> out == Splice(data, f.start, f.len, new_)
  {
    hide AnchorsOf, Splice, Obeys;
    forall out | EditsTo(data, old_, new_, out) ensures out == Splice(data, f.start, f.len, new_) {
      EditIsDeterministic(data, old_, new_, out, Splice(data, f.start, f.len, new_));
    }
  }

  lemma SpliceDiffers(data: bytes, s: nat, len: nat, a: bytes, b: bytes)
    requires s + len <= |data|
    ensures Splice(data, s, len, a) == Splice(data, s, len, b) <==> a == b
  {
    var x, y := Splice(data, s, len, a), Splice(data, s, len, b);
    assert x[s..|x| - (|data| - s - len)] == a && y[s..|y| - (|data| - s - len)] == b;
  }

  lemma PlainSpan(data: bytes, old_: bytes, f: Found)
    requires Obeys(data, AnchorsOf(old_), f) && f.start + f.len <= |data|
    ensures FindSub(old_, UPTO).None? ==> data[f.start..f.start + f.len] == old_
  {
    hide UPTO, FindSub;
    if FindSub(old_, UPTO).None? {
      assert data[f.start..][..|old_|] == old_ == data[f.start..f.start + |old_|];
    }
  }

  lemma PlainFinds(data: bytes, text: bytes)
    requires FindSub(text, UPTO).None?
    ensures (exists g: Found :: Obeys(data, AnchorsOf(text), g)) <==> text != [] && exists i :: OnlyAt(data, text, 0, i)
  {
    hide UPTO, FindSub, OnlyAt;
    if text != [] && exists i :: OnlyAt(data, text, 0, i) {
      var i :| OnlyAt(data, text, 0, i);
      assert Obeys(data, AnchorsOf(text), Found(i, |text|, false));
    }
  }

  lemma SpliceBack(data: bytes, s: nat, old_: bytes, new_: bytes, out: bytes)
    requires s + |old_| <= |data| && data[s..][..|old_|] == old_ && out == Splice(data, s, |old_|, new_)
    ensures s + |new_| <= |out| && new_ <= out[s..] && Splice(out, s, |new_|, old_) == data
  {
    assert out[s..] == new_ + data[s + |old_|..];
    assert out[..s] == data[..s] && out[s + |new_|..] == data[s + |old_|..];
    assert data == data[..s] + old_ + data[s + |old_|..] by {
      assert data[s..] == data[s..][..|old_|] + data[s..][|old_|..];
      assert data[s..][|old_|..] == data[s + |old_|..];
    }
  }
}
