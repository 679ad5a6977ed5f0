// DSML tags (ds4_agent.c:1336-1431): the tolerant closing tags, the strict
// opening tags, attributes, and the streamed prefix of a parameter close tag.

module DsmlTags {
  import opened Bytes

  // The fullwidth bar U+FF5C in UTF-8.
  const BAR: bytes := [0xEF, 0xBD, 0x9C]
  const DSML: bytes := BAR + Ascii("DSML") + BAR
  const OPEN: bytes := [LT] + DSML
  const CLOSE: bytes := [LT, SLASH] + DSML
  const TOOL_CALLS: bytes := Ascii("tool_calls")
  const INVOKE: bytes := Ascii("invoke")
  const PARAMETER: bytes := Ascii("parameter")
  const NAME: bytes := Ascii("name")
  const STRING: bytes := Ascii("string")
  const TRUE: bytes := Ascii("true")
  const START: bytes := OPEN + TOOL_CALLS + [GT]

  /** A byte that ends no tag name, closes no tag and ends no C string. */
  predicate IsPlain(c: byte) {
    c != LT && c != GT && c != NUL && c != QUOTE && !IsBlank(c)
  }

  predicate Plain(s: bytes) {
    forall i :: 0 <= i < |s| ==> IsPlain(s[i])
  }

  lemma LiteralsArePlain()
    ensures Plain(BAR) && Plain(DSML) && Plain(TOOL_CALLS) && Plain(INVOKE) && Plain(PARAMETER)
    ensures Plain(NAME) && Plain(STRING) && Plain(TRUE)
    ensures |BAR| == 3 && |DSML| == 10 && |OPEN| == 11 && |CLOSE| == 12 && |START| == 22
    ensures CLOSE == [LT, SLASH] + DSML
  {
  }

  // ---------------------------------------------------------------- closing tags

  /** Length of the closing tag of `name` at the start of `t`, if one is there. */
  function CloseTag(t: bytes, name: bytes): (r: Option<nat>)
    ensures r.Some? ==> |CLOSE| + |name| < r.value <= |t|
  {
    var prefix := CLOSE + name;
    if !(prefix <= t) then None
    else
      var i := SkipBlanks(t, |prefix|);
      var j := if BAR <= t[i..] then i + |BAR| else i;
      var k := SkipBlanks(t, j);
      if k < |t| && t[k] == GT then Some(k + 1) else None
  }

  /** The spellings of a closing tag: `prefix blank* bar? blank* >`. */
  datatype Spelling = Spelling(before: bytes, bar: bool, after: bytes)

  predicate ValidSpelling(s: Spelling) {
    AllBlank(s.before) && AllBlank(s.after)
  }

  function CloseWord(name: bytes, s: Spelling): bytes {
    CLOSE + name + s.before + (if s.bar then BAR else []) + s.after + [GT]
  }

  ghost predicate IsCloseWord(w: bytes, name: bytes) {
    exists s: Spelling :: ValidSpelling(s) && w == CloseWord(name, s)
  }

  /** `>` ends a closing tag and `<` starts it; neither occurs inside. */
  lemma CloseWordShape(name: bytes, s: Spelling)
    requires Plain(name) && ValidSpelling(s)
    ensures var w := CloseWord(name, s);
      |w| > 1 && w[0] == LT && w[|w| - 1] == GT && forall i :: 0 < i < |w| - 1 ==> w[i] != LT && w[i] != GT && w[i] != NUL
  {
    hide BAR, CLOSE, DSML, PARAMETER;
    LiteralsArePlain();
    var bar := if s.bar then BAR else [];
    var middle := [SLASH] + DSML + name + s.before + bar + s.after;
    assert CLOSE == [LT] + ([SLASH] + DSML);
    assert CloseWord(name, s) == [LT] + middle + [GT];
    assert forall c :: c in middle ==> c == SLASH || c in DSML || c in name || c in s.before || c in bar || c in s.after;
    assert forall c :: c in middle ==> c != LT && c != GT && c != NUL;
  }

  lemma BlanksBetween(t: bytes, i: nat)
    requires i <= |t|
    ensures AllBlank(t[i..SkipBlanks(t, i)]) && AllBlank([])
  {
  }

  lemma FourSlices(t: bytes, p: nat, i: nat, j: nat, k: nat, a: bytes, b: bytes)
    requires p <= i <= j <= k < |t| && t[k] == GT
    requires a == t[..p] && b == t[i..j]
    ensures t[..k + 1] == a + t[p..i] + b + t[j..k] + [GT]
  {
    assert t[..k + 1] == t[..p] + t[p..i] + t[i..j] + t[j..k] + [t[k]];
  }

  lemma Regroup(a: bytes, b: bytes, c: bytes, d: bytes, e: byte, rest: bytes)
    ensures a + b + c + d + [e] + rest == a + b + c + d + ([e] + rest)
  {
  }

  lemma FourPieces(p: bytes, a: bytes, b: bytes, c: bytes, rest: bytes)
    requires AllBlank(a) && AllBlank(c) && rest != []
    ensures var t := p + a + b + c + rest;
      && p <= t
      && b <= t[|p| + |a|..]
      && t[|p| + |a| + |b| + |c|] == rest[0]
      && (forall n :: |p| <= n < |p| + |a| ==> IsBlank(t[n]))
      && (forall n :: |p| + |a| + |b| <= n < |p| + |a| + |b| + |c| ==> IsBlank(t[n]))
  {
    var t := p + a + b + c + rest;
    assert t[|p| + |a|..] == b + (c + rest);
    assert forall n :: |p| <= n < |p| + |a| ==> t[n] == a[n - |p|];
    assert forall n :: |p| + |a| + |b| <= n < |p| + |a| + |b| + |c| ==> t[n] == c[n - |p| - |a| - |b|];
  }

  lemma CloseTagSound(t: bytes, name: bytes)
    requires CloseTag(t, name).Some?
    ensures IsCloseWord(t[..CloseTag(t, name).value], name)
  {
    hide BAR, CLOSE, DSML, PARAMETER, SkipBlanks, AllBlank, IsBlank;
    var prefix := CLOSE + name;
    var p := |prefix|;
    var i := SkipBlanks(t, p);
    var bar := BAR <= t[i..];
    var barText := if bar then BAR else [];
    var j := i + |barText|;
    var k := SkipBlanks(t, j);
    assert barText == t[i..j] && prefix == t[..p];
    FourSlices(t, p, i, j, k, prefix, barText);
    var s := Spelling(t[p..i], bar, t[j..k]);
    BlanksBetween(t, p);
    BlanksBetween(t, j);
    assert t[..k + 1] == CloseWord(name, s);
  }

  lemma CloseTagScan(t: bytes, name: bytes, b: nat, bar: bool, e: nat)
    requires var p := |CLOSE + name|; var j := if bar then b + |BAR| else b;
      && CLOSE + name <= t && p <= b && j <= e < |t| && t[e] == GT
      && (forall n :: p <= n < b ==> IsBlank(t[n])) && (forall n :: j <= n < e ==> IsBlank(t[n]))
      && (bar ==> BAR <= t[b..])
    ensures CloseTag(t, name) == Some(e + 1)
  {
    LiteralsArePlain();
    hide BAR, CLOSE, DSML, PARAMETER;
    var p := |CLOSE + name|;
    if bar {
      assert t[b] == t[b..][0] == BAR[0];
      assert SkipBlanks(t, p) == b;
      assert SkipBlanks(t, b + |BAR|) == e;
    } else {
      assert SkipBlanks(t, p) == e;
      assert t[e..][0] == GT;
      assert SkipBlanks(t, e) == e;
    }
  }

  lemma CloseTagComplete(name: bytes, s: Spelling, rest: bytes)
    requires ValidSpelling(s)
    ensures CloseTag(CloseWord(name, s) + rest, name) == Some(|CloseWord(name, s)|)
  {
    hide BAR, CLOSE, DSML, PARAMETER, CloseTag, IsBlank, AllBlank;
    var prefix := CLOSE + name;
    var bar := if s.bar then BAR else [];
    var end := [GT] + rest;
    var t := prefix + s.before + bar + s.after + end;
    Regroup(prefix, s.before, bar, s.after, GT, rest);
    assert CloseWord(name, s) + rest == t;
    FourPieces(prefix, s.before, bar, s.after, end);
    var b := |prefix| + |s.before|;
    CloseTagScan(t, name, b, s.bar, b + |bar| + |s.after|);
  }

  /** `agent_dsml_close_tag_at` recognises exactly the words of the closing-tag grammar. */
  lemma CloseTagExact(t: bytes, name: bytes, n: nat)
    requires n <= |t|
    ensures CloseTag(t, name) == Some(n) <==> IsCloseWord(t[..n], name)
  {
    hide BAR, CLOSE, DSML, PARAMETER;
    if IsCloseWord(t[..n], name) {
      var s: Spelling :| ValidSpelling(s) && t[..n] == CloseWord(name, s);
      assert t == t[..n] + t[n..];
      CloseTagComplete(name, s, t[n..]);
    }
    if CloseTag(t, name) == Some(n) {
      CloseTagSound(t, name);
    }
  }

  /** More input never changes a tag already found, and never completes one past a `>`. */
  lemma CloseTagStable(t: bytes, more: bytes, name: bytes)
    requires Plain(name)
    requires CloseTag(t, name).Some? || GT in t
    ensures CloseTag(t + more, name) == CloseTag(t, name)
  {
    hide BAR, CLOSE, DSML, PARAMETER, CloseTag;
    if CloseTag(t, name).Some? {
      CloseTagSound(t, name);
      var n := CloseTag(t, name).value;
      assert (t + more)[..n] == t[..n];
      CloseTagExact(t + more, name, n);
    } else if CloseTag(t + more, name).Some? {
      var n := CloseTag(t + more, name).value;
      CloseTagSound(t + more, name);
      var s: Spelling :| ValidSpelling(s) && (t + more)[..n] == CloseWord(name, s);
      CloseWordShape(name, s);
      var g :| 0 <= g < |t| && t[g] == GT;
      assert (t + more)[g] == GT;
      assert n <= |t|;
      assert t[..n] == (t + more)[..n];
      CloseTagExact(t, name, n);
    }
  }

  /** Two different names close with different words, whatever follows the first. */
  lemma CloseTagNames(t: bytes, name: bytes, other: bytes)
    requires Plain(name) && Plain(other) && |name| > 0 && |other| > 0 && name[0] != other[0]
    requires CloseTag(t, name).Some?
    ensures CloseTag(t, other).None?
  {
    hide BAR, CLOSE, DSML, PARAMETER;
    assert t[|CLOSE|] == (CLOSE + name)[|CLOSE|] == name[0];
    assert (CLOSE + other)[|CLOSE|] == other[0];
  }

  // ------------------------------------------------- streamed parameter close tags

  /** `agent_dsml_parameter_close_tail`: (still a prefix of a close tag, complete). */
  function CloseTail(tail: bytes): (r: (bool, bool))
    ensures r.1 ==> r.0
  {
    var prefix := CLOSE + PARAMETER;
    if |tail| <= |prefix| then (tail <= prefix, false)
    else if !(prefix <= tail) then (false, false)
    else
      var i := SkipBlanks(tail, |prefix|);
      if 0 < |tail| - i <= |BAR| && tail[i..] <= BAR then (true, false)
      else CloseTailEnd(tail, if BAR <= tail[i..] then i + |BAR| else i)
  }

  function CloseTailEnd(tail: bytes, i: nat): (r: (bool, bool))
    requires i <= |tail|
    ensures r.1 ==> r.0
    decreases |tail| - i
  {
    if i == |tail| then (true, false)
    else if tail[i] == GT then (i == |tail| - 1, i == |tail| - 1)
    else if IsBlank(tail[i]) then CloseTailEnd(tail, i + 1)
    else (false, false)
  }

  lemma {:induction false} CloseTailEndIs(tail: bytes, i: nat)
    requires i <= |tail|
    ensures var k := SkipBlanks(tail, i);
      CloseTailEnd(tail, i) == if k == |tail| then (true, false)
                               else (tail[k] == GT && k == |tail| - 1, tail[k] == GT && k == |tail| - 1)
    decreases |tail| - i
  {
    if i < |tail| && IsBlank(tail[i]) { CloseTailEndIs(tail, i + 1); }
  }

  /** Complete exactly on the words of the grammar. */
  lemma CloseTailComplete(tail: bytes)
    ensures CloseTail(tail).1 <==> IsCloseWord(tail, PARAMETER)
  {
    hide BAR, CLOSE, DSML, PARAMETER, IsCloseWord, CloseTag, CloseTail;
    assert tail[..|tail|] == tail;
    CloseTagExact(tail, PARAMETER, |tail|);
    CloseTailIsTag(tail);
  }

  /** Both recognisers find the same whole tags. */
  lemma CloseTailIsTag(tail: bytes)
    ensures CloseTail(tail).1 <==> CloseTag(tail, PARAMETER) == Some(|tail|)
  {
    hide BAR, CLOSE, DSML, PARAMETER, SkipBlanks, CloseTailEnd;
    LiteralsArePlain();
    var prefix := CLOSE + PARAMETER;
    if |tail| > |prefix| && prefix <= tail {
      var i := SkipBlanks(tail, |prefix|);
      if 0 < |tail| - i <= |BAR| && tail[i..] <= BAR {
        BarHasNoGt(tail, i);
      } else {
        CloseTailEndIs(tail, if BAR <= tail[i..] then i + |BAR| else i);
      }
    }
  }

  lemma BarHasNoGt(tail: bytes, i: nat)
    requires i < |tail| && tail[i..] <= BAR
    ensures forall k :: i <= k < |tail| ==> tail[k] != GT
  {
    hide BAR;
    LiteralsArePlain();
    assert forall k :: i <= k < |tail| ==> tail[k] == tail[i..][k - i] && tail[k] in BAR;
  }

  lemma PartialWord(tail: bytes, p: nat, i: nat, prefix: bytes, bar: bytes)
    requires p <= i <= |tail| && prefix == tail[..p] && tail[i..] <= bar
    ensures tail <= prefix + tail[p..i] + bar + [] + [GT]
  {
    assert tail == prefix + tail[p..i] + tail[i..];
  }

  lemma OpenWord(tail: bytes, p: nat, i: nat, j: nat, prefix: bytes, bar: bytes)
    requires p <= i <= j <= |tail| && prefix == tail[..p] && bar == tail[i..j]
    ensures tail <= prefix + tail[p..i] + bar + tail[j..] + [GT]
  {
    assert tail == prefix + tail[p..i] + bar + tail[j..];
  }

  /** Accepted tails can be completed to a word ... */
  lemma CloseTailSound(tail: bytes) returns (s: Spelling)
    requires CloseTail(tail).0
    ensures ValidSpelling(s) && tail <= CloseWord(PARAMETER, s)
  {
    hide BAR, CLOSE, DSML, PARAMETER, CloseTailEnd, SkipBlanks, CloseTag, Plain, AllBlank, IsBlank;
    LiteralsArePlain();
    var prefix := CLOSE + PARAMETER;
    var p := |prefix|;
    if CloseTail(tail).1 {
      CloseTailComplete(tail);
      s :| ValidSpelling(s) && tail == CloseWord(PARAMETER, s);
    } else if |tail| <= p {
      BlanksBetween(tail, 0);
      s := Spelling([], false, []);
      assert CloseWord(PARAMETER, s) == prefix + [GT];
    } else {
      var i := SkipBlanks(tail, p);
      assert prefix == tail[..p];
      if 0 < |tail| - i <= |BAR| && tail[i..] <= BAR {
        PartialWord(tail, p, i, prefix, BAR);
        BlanksBetween(tail, p);
        s := Spelling(tail[p..i], true, []);
      } else {
        s := OpenTailSound(tail);
      }
    }
  }

  /** A tail that has got past the bar, or needs none. */
  lemma OpenTailSound(tail: bytes) returns (s: Spelling)
    requires CloseTail(tail).0 && !CloseTail(tail).1 && CLOSE + PARAMETER < tail
    requires var i := SkipBlanks(tail, |CLOSE + PARAMETER|); !(0 < |tail| - i <= |BAR| && tail[i..] <= BAR)
    ensures ValidSpelling(s) && tail <= CloseWord(PARAMETER, s)
  {
    hide BAR, CLOSE, DSML, PARAMETER, CloseTailEnd, SkipBlanks, CloseTag, Plain, AllBlank, IsBlank;
    var prefix := CLOSE + PARAMETER;
    var p := |prefix|;
    var i := SkipBlanks(tail, p);
    var bar := BAR <= tail[i..];
    var barText := if bar then BAR else [];
    var j := i + |barText|;
    CloseTailEndIs(tail, j);
    assert barText == tail[i..j];
    OpenWord(tail, p, i, j, prefix, barText);
    BlanksBetween(tail, p);
    BlanksBetween(tail, j);
    assert tail[j..SkipBlanks(tail, j)] == tail[j..];
    s := Spelling(tail[p..i], bar, tail[j..]);
  }

  /** ... and every prefix of a word is accepted. */
  lemma CloseTailAccepts(tail: bytes, s: Spelling)
    requires ValidSpelling(s) && tail <= CloseWord(PARAMETER, s)
    ensures CloseTail(tail).0
  {
    hide BAR, CLOSE, DSML, PARAMETER, CloseTailEnd, SkipBlanks, CloseTag;
    var prefix := CLOSE + PARAMETER;
    var bar := if s.bar then BAR else [];
    var w := CloseWord(PARAMETER, s);
    assert w == prefix + s.before + bar + s.after + [GT];
    assert prefix <= w;
    LiteralsArePlain();
    if |tail| <= |prefix| {
      assert tail == prefix[..|tail|];
    } else {
      assert prefix <= tail;
      LongTailAccepts(tail, s);
    }
  }

  /** The bytes of a word behind its name. */
  lemma WordBytes(prefix: bytes, before: bytes, bar: bytes, after: bytes)
    ensures var w := prefix + before + bar + after + [GT]; var b := |prefix| + |before|; var e := b + |bar| + |after|;
      && (forall k :: |prefix| <= k < b ==> w[k] == before[k - |prefix|])
      && (forall k :: b <= k < b + |bar| ==> w[k] == bar[k - b])
      && (forall k :: b + |bar| <= k < e ==> w[k] == after[k - b - |bar|])
      && w[e] == GT && |w| == e + 1
  {
  }

  lemma LongTailAccepts(tail: bytes, s: Spelling)
    requires ValidSpelling(s) && tail <= CloseWord(PARAMETER, s) && CLOSE + PARAMETER < tail
    ensures CloseTail(tail).0
  {
    hide BAR, CLOSE, DSML, PARAMETER, CloseTailEnd, SkipBlanks, CloseTag;
    var prefix := CLOSE + PARAMETER;
    var bar := if s.bar then BAR else [];
    var w := CloseWord(PARAMETER, s);
    WordBytes(prefix, s.before, bar, s.after);
    assert w == prefix + s.before + bar + s.after + [GT];
    LiteralsArePlain();
    var b := |prefix| + |s.before|;
    var e := b + |bar| + |s.after|;
    var i := SkipBlanks(tail, |prefix|);
    if 0 < |tail| - i <= |BAR| && tail[i..] <= BAR {
    } else {
      var j := if BAR <= tail[i..] then i + |BAR| else i;
      CloseTailEndIs(tail, j);
      var k := SkipBlanks(tail, j);
      if s.bar && b < |tail| {
        assert !IsBlank(w[b]);
        assert i == b;
        assert |tail| >= b + |BAR|;
        assert BAR <= tail[i..];
      } else if i < |tail| {
        assert i == e;
      }
    }
  }

  /** The streamed recogniser is exact: prefixes of close tags, complete on close tags. */
  lemma CloseTailExact(tail: bytes)
    ensures CloseTail(tail).0 <==> exists w :: IsCloseWord(w, PARAMETER) && tail <= w
    ensures CloseTail(tail).1 <==> IsCloseWord(tail, PARAMETER)
    ensures CloseTail(tail).1 <==> CloseTag(tail, PARAMETER) == Some(|tail|)
  {
    hide BAR, CLOSE, DSML, PARAMETER;
    CloseTailComplete(tail);
    assert tail[..|tail|] == tail;
    CloseTagExact(tail, PARAMETER, |tail|);
    if CloseTail(tail).0 {
      var s := CloseTailSound(tail);
      assert IsCloseWord(CloseWord(PARAMETER, s), PARAMETER);
    }
    if w: bytes :| IsCloseWord(w, PARAMETER) && tail <= w {
      var s: Spelling :| ValidSpelling(s) && w == CloseWord(PARAMETER, s);
      CloseTailAccepts(tail, s);
    }
  }
}
