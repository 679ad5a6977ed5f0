// The parser object itself (ds4_agent.c:1282-1560): the record that the streamed
// bytes update in place, with its scanning loops, proved against DsmlStream.

module DsmlParser {
  import opened Bytes
  import opened DsmlTags
  import DsmlParse
  import DsmlStream

  type Phase = DsmlParse.Phase

  // ------------------------------------------------------------- scanning loops

  /** `agent_dsml_close_tag_at`: the length of the closing tag of `name` at `p`, if any. */
  method CloseTagAt(raw: bytes, p: nat, name: bytes) returns (tagLen: Option<nat>)
    requires p <= |raw|
    ensures tagLen == CloseTag(raw[p..], name)
    ensures forall n: nat :: p + n <= |raw| ==> (tagLen == Some(n) <==> IsCloseWord(raw[p..p + n], name))
  {
    hide BAR, CLOSE, IsCloseWord;
    var s := raw[p..];
    CloseTagIsWord(raw, p, name);
    var prefix := CLOSE + name;
    if !(prefix <= s) { return None; }
    var q := |prefix|;
    while q < |s| && IsBlank(s[q])
      invariant |prefix| <= q <= |s| && SkipBlanks(s, q) == SkipBlanks(s, |prefix|)
    {
      q := q + 1;
    }
    if BAR <= s[q..] { q := q + |BAR|; }
    ghost var from := q;
    while q < |s| && IsBlank(s[q])
      invariant from <= q <= |s| && SkipBlanks(s, q) == SkipBlanks(s, from)
    {
      q := q + 1;
    }
    if q == |s| || s[q] != GT { return None; }
    return Some(q + 1);
  }

  lemma CloseTagIsWord(raw: bytes, p: nat, name: bytes)
    requires p <= |raw|
    ensures forall n: nat :: p + n <= |raw| ==> (CloseTag(raw[p..], name) == Some(n) <==> IsCloseWord(raw[p..p + n], name))
  {
    hide CloseTag, IsCloseWord;
    var s := raw[p..];
    forall n: nat | p + n <= |raw| ensures CloseTag(s, name) == Some(n) <==> IsCloseWord(raw[p..p + n], name) {
      CloseTagExact(s, name, n);
      assert s[..n] == raw[p..p + n];
    }
  }

  /** `agent_dsml_parameter_close_tail`: exact on prefixes of parameter close tags. */
  method ParameterCloseTail(tail: bytes) returns (accepted: bool, complete: bool)
    ensures (accepted, complete) == CloseTail(tail)
    ensures accepted <==> exists w :: IsCloseWord(w, PARAMETER) && tail <= w
    ensures complete <==> IsCloseWord(tail, PARAMETER)
  {
    hide BAR, CLOSE, IsCloseWord;
    CloseTailExact(tail);
    var prefix := CLOSE + PARAMETER;
    complete := false;
    if |tail| <= |prefix| { return tail <= prefix, false; }
    if !(prefix <= tail) { return false, false; }
    var i := |prefix|;
    while i < |tail| && IsBlank(tail[i])
      invariant |prefix| <= i <= |tail| && SkipBlanks(tail, i) == SkipBlanks(tail, |prefix|)
    {
      i := i + 1;
    }
    if i < |tail| && |tail| - i <= |BAR| && tail[i..] <= BAR { return true, false; }
    if BAR <= tail[i..] { i := i + |BAR|; }
    while i < |tail|
      invariant i <= |tail| && CloseTailEnd(tail, i) == CloseTail(tail)
    {
      if tail[i] == GT { return i == |tail| - 1, i == |tail| - 1; }
      if !IsBlank(tail[i]) { return false, false; }
      i := i + 1;
    }
    return true, false;
  }

  /** `agent_dsml_find_close_tag`: the first parameter close tag from `start`, before any NUL. */
  method FindCloseTag(raw: bytes, start: nat) returns (found: Option<(nat, nat)>)
    requires start <= |raw|
    ensures found == DsmlParse.FindClose(raw[start..])
  {
    hide CloseTag, CLOSE, PARAMETER;
    var p := start;
    while p < |raw| && raw[p] != NUL
      invariant start <= p <= |raw|
      invariant var rest := DsmlParse.FindClose(raw[p..]);
        DsmlParse.FindClose(raw[start..]) == if rest.None? then None else Some((p - start + rest.value.0, rest.value.1))
    {
      assert raw[p..][1..] == raw[p + 1..];
      var n := CloseTagAt(raw, p, PARAMETER);
      if n.Some? { return Some((p - start, n.value)); }
      p := p + 1;
    }
    return None;
  }

  /** `agent_dsml_update_param_close_prefix` for the value bytes `value`. */
  method ParamClosePrefix(value: bytes) returns (flag: bool)
    ensures flag == DsmlStream.ClosePrefix(value)
  {
    hide CLOSE, CloseTail, DsmlStream.LastLt, IsCloseWord, PARAMETER;
    var lt := |value|;
    assert value[..lt] == value;
    while lt > 0 && value[lt - 1] != LT
      invariant 0 <= lt <= |value|
      invariant DsmlStream.LastLt(value) == DsmlStream.LastLt(value[..lt])
    {
      assert value[..lt][..lt - 1] == value[..lt - 1];
      LastStep(value[..lt]);
      lt := lt - 1;
    }
    LastStep(value[..lt]);
    if lt == 0 { return false; }
    var tail := value[lt - 1..];
    if |tail| > 64 || !(CLOSE <= tail) { return false; }
    var accepted, complete := ParameterCloseTail(tail);
    return accepted && !complete;
  }

  lemma LastStep(v: bytes)
    ensures DsmlStream.LastLt(v) == if v == [] then None else if v[|v| - 1] == LT then Some(|v| - 1) else DsmlStream.LastLt(v[..|v| - 1])
  {
  }

  // ------------------------------------------------------------------ the parser

  lemma FeedFirst(p: DsmlStream.State, bs: bytes)
    requires DsmlStream.Sound(p) && bs != []
    ensures DsmlStream.FeedBytes(p, bs) == DsmlStream.FeedBytes(DsmlStream.FeedByte(p, bs[0]), bs[1..])
  {
    hide DsmlStream.FeedByte;
  }

  lemma FeedNone(p: DsmlStream.State)
    requires DsmlStream.Sound(p)
    ensures DsmlStream.FeedBytes(p, []) == p
  {
  }

  class Parser {
    var phase: Phase
    var searchTail: bytes
    var raw: bytes
    var parsePos: nat
    var current: DsmlParse.Draft
    var paramName: Option<bytes>
    var paramIsString: bool
    var paramValueStart: nat
    var paramClosePrefix: bool
    var calls: seq<DsmlParse.Call>
    var error: bytes

    function Core(): DsmlParse.Core
      reads this
    {
      DsmlParse.Core(phase, parsePos, current, paramName, paramIsString, paramValueStart, calls, error)
    }

    function View(): DsmlStream.State
      reads this
    {
      DsmlStream.State(Core(), searchTail, raw, paramClosePrefix)
    }

    ghost predicate Valid()
      reads this
    {
      DsmlStream.Sound(View())
    }

    constructor ()
      ensures Valid() && View() == DsmlStream.INIT
    {
      phase, searchTail, raw, parsePos := DsmlParse.Search, [], [], 0;
      current, calls, error := DsmlParse.EMPTY, [], [];
      paramName, paramIsString, paramValueStart, paramClosePrefix := None, false, 0, false;
    }

    /** `agent_dsml_parser_reset`. */
    method Reset()
      modifies this
      ensures Valid() && View() == DsmlStream.INIT
    {
      phase, searchTail, raw, parsePos := DsmlParse.Search, [], [], 0;
      current, calls, error := DsmlParse.EMPTY, [], [];
      paramName, paramIsString, paramValueStart, paramClosePrefix := None, false, 0, false;
    }

    /** `agent_dsml_set_error`. */
    method SetError(msg: bytes)
      modifies `phase, `error
      ensures Core() == old(Core()).(phase := DsmlParse.Failed, error := msg)
    {
      phase, error := DsmlParse.Failed, msg;
    }

    /** `agent_tool_calls_push` of the call being read. */
    method PushCall()
      modifies `calls, `current
      ensures Core() == DsmlParse.Push(old(Core()))
    {
      if current.name.Some? {
        calls := calls + [DsmlParse.Call(current.name.value, current.args)];
        current := DsmlParse.EMPTY;
      }
    }

    /** The structural tag `tag`, which starts at `parsePos` and is no closing tag. */
    method OpenTag(tag: bytes)
      requires Valid() && phase == DsmlParse.Structural && parsePos + |tag| <= |raw|
      modifies this
      ensures Valid() && unchanged(`searchTail, `raw)
      ensures Core() == DsmlParse.OpenTag(old(Core()), tag)
      ensures !paramClosePrefix
    {
      hide DsmlParse.OpenTagIs, DsmlParse.ParseAttr, INVOKE, PARAMETER, NAME, STRING, TRUE;
      if DsmlParse.OpenTagIs(tag, INVOKE) {
        current := DsmlParse.EMPTY;
        var name := DsmlParse.ParseAttr(tag, NAME);
        if name.None? {
          phase, error := DsmlParse.Failed, DsmlParse.NO_INVOKE_NAME;
          return;
        }
        current := current.(name := name);
        parsePos := parsePos + |tag|;
      } else if DsmlParse.OpenTagIs(tag, PARAMETER) {
        paramName := DsmlParse.ParseAttr(tag, NAME);
        paramIsString := DsmlParse.ParseAttr(tag, STRING) == Some(TRUE);
        if paramName.None? {
          phase, error := DsmlParse.Failed, DsmlParse.NO_PARAM_NAME;
          return;
        }
        parsePos := parsePos + |tag|;
        paramValueStart := parsePos;
        paramClosePrefix := false;
        phase := DsmlParse.ParamValue;
      } else {
        error := DsmlParse.UNEXPECTED + tag[..if |tag| > 80 then 80 else |tag|];
        phase := DsmlParse.Failed;
      }
    }

    /** The value of the open parameter, if its close tag is there; true if the parser must wait. */
    method CloseParam() returns (wait: bool)
      requires Valid() && phase == DsmlParse.ParamValue
      modifies this
      ensures Valid() && unchanged(`searchTail, `raw)
      ensures DsmlParse.Step(raw, old(Core())) == if wait then DsmlParse.Wait(Core()) else DsmlParse.Go(Core())
      ensures if wait then unchanged(this) else !paramClosePrefix
    {
      hide CloseTag, CLOSE, PARAMETER, DsmlParse.FindClose, DsmlParse.OpenTag, DsmlParse.Push;
      var close := FindCloseTag(raw, paramValueStart);
      if close.None? { return true; }
      var (e, n) := close.value;
      var end := paramValueStart + e;
      current := current.(args := current.args +
                          [DsmlParse.Arg(paramName.GetOr([]), raw[paramValueStart..end], paramIsString)]);
      paramClosePrefix := false;
      paramName := None;
      parsePos := end + n;
      phase := DsmlParse.Structural;
      return false;
    }

    method SkipBlank()
      requires parsePos <= |raw|
      modifies `parsePos
      ensures parsePos == SkipBlanks(raw, old(parsePos))
    {
      while parsePos < |raw| && IsBlank(raw[parsePos])
        invariant old(parsePos) <= parsePos <= |raw|
        invariant SkipBlanks(raw, parsePos) == SkipBlanks(raw, old(parsePos))
      {
        parsePos := parsePos + 1;
      }
    }

    /** One structural tag, if it is there; true if the parser must wait. */
    method ParseTag() returns (wait: bool)
      requires Valid() && phase == DsmlParse.Structural
      modifies this
      ensures Valid() && unchanged(`searchTail, `raw)
      ensures DsmlParse.Step(raw, old(Core())) == if wait then DsmlParse.Wait(Core()) else DsmlParse.Go(Core())
      ensures !paramClosePrefix
    {
      hide SkipBlanks, DsmlParse.Step, DsmlParse.TagStep;
      DsmlParse.StructuralStep(raw, Core());
      SkipBlank();
      wait := TagHere();
    }

    /** The tag at `parsePos`, where no blank stands. */
    method TagHere() returns (wait: bool)
      requires Valid() && phase == DsmlParse.Structural
      modifies this
      ensures Valid() && unchanged(`searchTail, `raw)
      ensures DsmlParse.TagStep(raw[old(parsePos)..], old(Core())) == if wait then DsmlParse.Wait(Core()) else DsmlParse.Go(Core())
      ensures !paramClosePrefix
    {
      hide CloseTag, CLOSE, INVOKE, TOOL_CALLS, IsCloseWord, FindByte, DsmlParse.OpenTag, DsmlParse.Push;
      if parsePos >= |raw| { return true; }
      var close := CloseTagAt(raw, parsePos, TOOL_CALLS);
      if close.Some? {
        PushCall();
        parsePos := parsePos + close.value;
        phase := DsmlParse.Done;
        return false;
      }
      close := CloseTagAt(raw, parsePos, INVOKE);
      if close.Some? {
        PushCall();
        parsePos := parsePos + close.value;
        return false;
      }
      var tagEnd := FindByte(raw[parsePos..], GT);
      if tagEnd.None? { return true; }
      OpenTag(raw[parsePos..][..tagEnd.value + 1]);
      return false;
    }

    /** `agent_dsml_parse`: parse as much of the buffer as possible. */
    method Parse()
      requires Valid()
      modifies this
      ensures Valid() && unchanged(`searchTail, `raw)
      ensures Core() == DsmlParse.Parse(raw, old(Core()))
      ensures View() == old(View()) || !paramClosePrefix
    {
      hide DsmlParse.Step;
      while phase == DsmlParse.Structural || phase == DsmlParse.ParamValue
        invariant Valid() && raw == old(raw) && searchTail == old(searchTail)
        invariant DsmlParse.Parse(raw, Core()) == DsmlParse.Parse(raw, old(Core()))
        invariant View() == old(View()) || !paramClosePrefix
        decreases |raw| - parsePos, DsmlParse.Active(Core())
      {
        var wait;
        if phase == DsmlParse.ParamValue { wait := CloseParam(); } else { wait := ParseTag(); }
        if wait { return; }
      }
    }

    /** `agent_dsml_start`. */
    method Start()
      requires Valid()
      modifies this
      ensures View() == DsmlStream.Start(old(View())).(closePrefix := old(paramClosePrefix))
    {
      phase := DsmlParse.Structural;
      searchTail := [];
      raw := raw + START;
      parsePos := |START|;
    }

    /** `agent_dsml_feed`. */
    method Feed(s: bytes)
      requires Valid()
      modifies this
      ensures Valid()
      ensures View() == DsmlStream.Feed(old(View()), s)
    {
      hide CLOSE, START, DsmlParse.Parse, DsmlStream.ClosePrefix, DsmlStream.FeedBytes;
      if phase == DsmlParse.Done || phase == DsmlParse.Failed { return; }
      for i := 0 to |s|
        invariant Valid()
        invariant DsmlStream.FeedBytes(View(), s[i..]) == DsmlStream.FeedBytes(old(View()), s)
      {
        assert s[i..][0] == s[i] && s[i..][1..] == s[i + 1..];
        ghost var before := View();
        FeedFirst(before, s[i..]);
        if phase == DsmlParse.Search {
          if |searchTail| == DsmlStream.SEARCH_TAIL { searchTail := searchTail[1..]; }
          searchTail := searchTail + [s[i]];
          if |searchTail| >= |START| && searchTail[|searchTail| - |START|..] == START { Start(); }
        } else {
          raw := raw + [s[i]];
          Parse();
          if phase == DsmlParse.ParamValue {
            paramClosePrefix := ParamClosePrefix(raw[paramValueStart..]);
          } else {
            paramClosePrefix := false;
          }
        }
        assert View() == DsmlStream.FeedByte(before, s[i]);
      }
      FeedNone(View());
    }
  }
}
