// What the DSML tool-call parser computes (ds4_agent.c:1239-1560), as functions
// on its buffer, and the proof that feeding it byte by byte is the same as
// parsing the whole text at once.

module DsmlParse {
  import opened Bytes
  import opened DsmlTags

  datatype Phase = Search | Structural | ParamValue | Done | Failed

  datatype Arg = Arg(name: bytes, value: bytes, isString: bool)
  datatype Call = Call(name: bytes, args: seq<Arg>)

  /** The call being read; it has no name before its invoke tag. */
  datatype Draft = Draft(name: Option<bytes>, args: seq<Arg>)

  /** The parser record without its buffers. */
  datatype Core = Core(
    phase: Phase,
    pos: nat,
    draft: Draft,
    paramName: Option<bytes>,
    paramIsString: bool,
    valueStart: nat,
    calls: seq<Call>,
    error: bytes)

  const EMPTY := Draft(None, [])
  const FRESH := Core(Search, 0, EMPTY, None, false, 0, [], [])

  const NO_INVOKE_NAME: bytes := Ascii("tool invoke without name")
  const NO_PARAM_NAME: bytes := Ascii("tool parameter without name")
  const UNEXPECTED: bytes := Ascii("unexpected DSML tag: ")

  // ---------------------------------------------------------------- one step

  /** First parameter close tag of `t` before any NUL: its position and length. */
  function FindClose(t: bytes): (r: Option<(nat, nat)>)
    ensures r.Some? ==> r.value.1 > 0 && r.value.0 + r.value.1 <= |t|
  {
    if t == [] || t[0] == NUL then None
    else
      match CloseTag(t, PARAMETER)
      case Some(n) => Some((0, n))
      case None =>
        match FindClose(t[1..])
        case Some((e, n)) => Some((e + 1, n))
        case None => None
  }

  /** `agent_parse_attr`: the text between the quotes after the first `name="`. */
  function ParseAttr(tag: bytes, name: bytes): Option<bytes> {
    var pat := name + [0x3D, QUOTE];
    match FindSub(tag, pat)
    case None => None
    case Some(k) =>
      var rest := tag[k + |pat|..];
      match FindByte(rest, QUOTE)
      case None => None
      case Some(e) => Some(rest[..e])
  }

  predicate OpenTagIs(tag: bytes, name: bytes) {
    var prefix := OPEN + name;
    prefix < tag && (tag[|prefix|] == GT || IsBlank(tag[|prefix|]))
  }

  function Push(c: Core): Core {
    match c.draft.name
    case None => c
    case Some(name) => c.(calls := c.calls + [Call(name, c.draft.args)], draft := EMPTY)
  }

  /** An opening tag that starts at `c.pos`. */
  function OpenTag(c: Core, tag: bytes): Core {
    if OpenTagIs(tag, INVOKE) then
      match ParseAttr(tag, NAME)
      case None => c.(draft := EMPTY, phase := Failed, error := NO_INVOKE_NAME)
      case Some(name) => c.(draft := Draft(Some(name), []), pos := c.pos + |tag|)
    else if OpenTagIs(tag, PARAMETER) then
      var isString := ParseAttr(tag, STRING) == Some(TRUE);
      match ParseAttr(tag, NAME)
      case None => c.(paramName := None, paramIsString := isString, phase := Failed, error := NO_PARAM_NAME)
      case Some(name) =>
        c.(paramName := Some(name), paramIsString := isString, pos := c.pos + |tag|,
        valueStart := c.pos + |tag|, phase := ParamValue)
    else
      c.(phase := Failed, error := UNEXPECTED + tag[..if |tag| > 80 then 80 else |tag|])
  }

  function CloseParam(c: Core, raw: bytes, e: nat, n: nat): Core
    requires c.valueStart + e <= |raw|
  {
    var arg := Arg(c.paramName.GetOr([]), raw[c.valueStart..c.valueStart + e], c.paramIsString);
    c.(draft := c.draft.(args := c.draft.args + [arg]), paramName := None,
    pos := c.valueStart + e + n, phase := Structural)
  }

  predicate Active(c: Core) { c.phase == Structural || c.phase == ParamValue }

  predicate Valid(raw: bytes, c: Core) {
    c.pos <= |raw| && (c.phase == ParamValue ==> c.valueStart == c.pos && c.paramName.Some?)
  }

  datatype Outcome = Wait(core: Core) | Go(core: Core)

  /** The structural tag at the start of `t`, the text from `at.pos` on. */
  function TagStep(t: bytes, at: Core): (r: Outcome)
    requires at.phase == Structural
    ensures r.Wait? ==> r.core == at
    ensures r.Go? ==> at.pos <= r.core.pos <= at.pos + |t| && r.core.phase != Search
    ensures r.Go? && Active(r.core) ==> r.core.pos > at.pos
    ensures r.core.phase == ParamValue ==> r.core.valueStart == r.core.pos && r.core.paramName.Some?
  {
    hide CloseTag, FindByte, ParseAttr, OpenTagIs, INVOKE, TOOL_CALLS, CLOSE, UNEXPECTED;
    if t == [] then Wait(at)
    else if CloseTag(t, TOOL_CALLS).Some? then
      Go(Push(at).(pos := at.pos + CloseTag(t, TOOL_CALLS).value, phase := Done))
    else if CloseTag(t, INVOKE).Some? then
      Go(Push(at).(pos := at.pos + CloseTag(t, INVOKE).value))
    else
      match FindByte(t, GT)
      case None => Wait(at)
      case Some(g) => Go(OpenTag(at, t[..g + 1]))
  }

  /** One iteration of the loop of `agent_dsml_parse`; `Wait` is its early return. */
  function Step(raw: bytes, c: Core): (r: Outcome)
    requires Valid(raw, c) && Active(c)
    ensures Valid(raw, r.core)
    ensures r.Wait? ==> Active(r.core)
    ensures r.core.pos >= c.pos
    ensures r.Go? && Active(r.core) ==> r.core.pos > c.pos
  {
    hide FindClose, SkipBlanks, TagStep;
    if c.phase == ParamValue then
      match FindClose(raw[c.valueStart..])
      case None => Wait(c)
      case Some((e, n)) => Go(CloseParam(c, raw, e, n))
    else
      var p := SkipBlanks(raw, c.pos);
      TagStep(raw[p..], c.(pos := p))
  }

  /** A structural step skips the blanks and looks at the tag behind them. */
  lemma StructuralStep(raw: bytes, c: Core)
    requires Valid(raw, c) && c.phase == Structural
    ensures var p := SkipBlanks(raw, c.pos); Step(raw, c) == TagStep(raw[p..], c.(pos := p))
  {
    hide FindClose, SkipBlanks, TagStep;
  }

  /** `agent_dsml_parse`. */
  function Parse(raw: bytes, c: Core): (r: Core)
    requires Valid(raw, c)
    ensures Valid(raw, r)
    ensures Active(c) ==> r.phase != Search
    decreases |raw| - c.pos, Active(c)
  {
    if !Active(c) then c
    else match Step(raw, c) case Wait(d) => d case Go(d) => Parse(raw, d)
  }

  // ---------------------------------------------------------------- stability

  lemma CloseTagEnds(t: bytes)
    requires CloseTag(t, PARAMETER).Some?
    ensures GT in t && t[0] == LT
  {
    LiteralsArePlain();
    CloseTagSound(t, PARAMETER);
    var n := CloseTag(t, PARAMETER).value;
    var s: Spelling :| ValidSpelling(s) && t[..n] == CloseWord(PARAMETER, s);
    CloseWordShape(PARAMETER, s);
    assert t[n - 1] == t[..n][n - 1] == GT;
    assert t[0] == t[..n][0];
  }

  lemma {:induction false} FindCloseSpec(t: bytes)
    requires FindClose(t).Some?
    ensures var (e, n) := FindClose(t).value;
      && CloseTag(t[e..], PARAMETER) == Some(n) && NUL !in t[..e]
      && (forall k :: 0 <= k < e ==> CloseTag(t[k..], PARAMETER).None?)
      && GT in t
  {
    hide CloseTag;
    var (e, n) := FindClose(t).value;
    if e == 0 {
      CloseTagEnds(t);
      assert t[0..] == t;
    } else {
      FindCloseSpec(t[1..]);
      assert t[1..][e - 1..] == t[e..];
      assert t[..e] == [t[0]] + t[1..][..e - 1];
      forall k | 0 <= k < e ensures CloseTag(t[k..], PARAMETER).None? {
        if k > 0 { assert t[k..] == t[1..][k - 1..]; } else { assert t[0..] == t; }
      }
    }
  }

  lemma {:induction false} FindCloseStable(t: bytes, more: bytes)
    requires FindClose(t).Some?
    ensures FindClose(t + more) == FindClose(t)
  {
    hide CloseTag;
    FindCloseSpec(t);
    LiteralsArePlain();
    CloseTagStable(t, more, PARAMETER);
    if CloseTag(t, PARAMETER).None? {
      FindCloseStable(t[1..], more);
      assert (t + more)[1..] == t[1..] + more;
    }
  }

  lemma {:induction false} FindByteStable(t: bytes, more: bytes, c: byte)
    requires FindByte(t, c).Some?
    ensures FindByte(t + more, c) == FindByte(t, c)
  {
    if t[0] != c {
      FindByteStable(t[1..], more, c);
      assert (t + more)[1..] == t[1..] + more;
    }
  }

  lemma {:induction false} SkipBlanksStable(raw: bytes, more: bytes, i: nat)
    requires i <= |raw|
    ensures var p := SkipBlanks(raw, i);
      && SkipBlanks(raw + more, i) == SkipBlanks(raw + more, p)
      && (p < |raw| ==> SkipBlanks(raw + more, p) == p)
    decreases |raw| - i
  {
    if i < |raw| && IsBlank(raw[i]) { SkipBlanksStable(raw, more, i + 1); }
  }

  /** The structural tag at `p` is decided once its `>` is there. */
  lemma TagStable(t: bytes, more: bytes)
    requires CloseTag(t, TOOL_CALLS).Some? || CloseTag(t, INVOKE).Some? || FindByte(t, GT).Some?
    ensures CloseTag(t, TOOL_CALLS).Some? ==> CloseTag(t + more, TOOL_CALLS) == CloseTag(t, TOOL_CALLS)
    ensures CloseTag(t, TOOL_CALLS).None? ==> CloseTag(t + more, TOOL_CALLS).None?
    ensures CloseTag(t, TOOL_CALLS).None? ==> CloseTag(t + more, INVOKE) == CloseTag(t, INVOKE)
  {
    hide CloseTag;
    LiteralsArePlain();
    if CloseTag(t, TOOL_CALLS).Some? {
      CloseTagStable(t, more, TOOL_CALLS);
    } else if CloseTag(t, INVOKE).Some? {
      CloseTagStable(t, more, INVOKE);
      CloseTagNames(t + more, INVOKE, TOOL_CALLS);
    } else {
      CloseTagStable(t, more, TOOL_CALLS);
      CloseTagStable(t, more, INVOKE);
    }
  }

  /** A step that did not have to wait does the same with more input behind it. */
  lemma StepStable(raw: bytes, more: bytes, c: Core)
    requires Valid(raw, c) && Active(c) && Step(raw, c).Go?
    ensures Step(raw + more, c) == Step(raw, c)
  {
    hide TagStep, SkipBlanks, FindClose;
    if c.phase == ParamValue {
      var t := raw[c.valueStart..];
      FindCloseStable(t, more);
      assert (raw + more)[c.valueStart..] == t + more;
      var (e, n) := FindClose(t).value;
      assert (raw + more)[c.valueStart..c.valueStart + e] == raw[c.valueStart..c.valueStart + e];
    } else {
      SkipBlanksStable(raw, more, c.pos);
      var p := SkipBlanks(raw, c.pos);
      var t := raw[p..];
      assert (raw + more)[p..] == t + more;
      TagStepStable(t, more, c.(pos := p));
      SomeTag(t, c.(pos := p));
    }
  }

  lemma SomeTag(t: bytes, at: Core)
    requires at.phase == Structural && TagStep(t, at).Go?
    ensures t != []
  {
    hide CloseTag, OpenTag, Push, FindByte;
  }

  lemma TagStepStable(t: bytes, more: bytes, at: Core)
    requires at.phase == Structural && TagStep(t, at).Go?
    ensures TagStep(t + more, at) == TagStep(t, at)
  {
    hide CloseTag, OpenTag, Push, FindByte, INVOKE, TOOL_CALLS;
    TagStable(t, more);
    if CloseTag(t, TOOL_CALLS).None? && CloseTag(t, INVOKE).None? {
      FindByteStable(t, more, GT);
      var g := FindByte(t, GT).value;
      assert (t + more)[..g + 1] == t[..g + 1];
    }
  }

  /** Waiting only skips blanks. */
  lemma WaitResumes(raw: bytes, more: bytes, c: Core)
    requires Valid(raw, c) && Active(c) && Step(raw, c).Wait?
    ensures Valid(raw + more, Step(raw, c).core)
    ensures Step(raw + more, Step(raw, c).core) == Step(raw + more, c)
  {
    hide TagStep, FindClose, SkipBlanks;
    SkipBlanksStable(raw, more, c.pos);
  }

  /** A parse that had to wait resumes as if it had seen everything from the start. */
  lemma {:induction false} ParseResumes(raw: bytes, more: bytes, c: Core)
    requires Valid(raw, c)
    ensures Valid(raw + more, Parse(raw, c))
    ensures Parse(raw + more, Parse(raw, c)) == Parse(raw + more, c)
    decreases |raw| - c.pos, Active(c)
  {
    hide Step;
    if Active(c) {
      match Step(raw, c)
      case Go(d) =>
        StepStable(raw, more, c);
        ParseResumes(raw, more, d);
      case Wait(d) =>
        WaitResumes(raw, more, c);
    }
  }

  /**
   * Which opening tags break a call, and what is told: an invoke or a parameter without a
   * name, each with its own message, and any other tag with its first 80 bytes.
   */
  lemma BrokenTagIsTold(raw: bytes, c: Core, tag: bytes, rest: bytes)
    requires Valid(raw, c) && c.phase == Structural && raw[SkipBlanks(raw, c.pos)..] == tag + rest
    requires tag != [] && tag[|tag| - 1] == GT && GT !in tag[..|tag| - 1] && NUL !in tag
    requires CloseTag(tag + rest, TOOL_CALLS).None? && CloseTag(tag + rest, INVOKE).None?
    ensures var invoke, param := OpenTagIs(tag, INVOKE), OpenTagIs(tag, PARAMETER); var named := ParseAttr(tag, NAME).Some?;
      var r := Parse(raw, c); var d := Step(raw, c).core;
      && (d.phase == Failed <==> !(invoke || param) || !named)
      && (d.phase == Failed ==> r == d && r.calls == c.calls)
      && (d.phase == Failed ==>
            r.error == (if invoke then NO_INVOKE_NAME else if param then NO_PARAM_NAME
                           else UNEXPECTED + tag[..if |tag| > 80 then 80 else |tag|]))
      && (d.phase != Failed ==> r == Parse(raw, d) && d.pos == |raw| - |rest| && d.error == c.error)
  {
    hide CloseTag, FindByte, ParseAttr, OpenTagIs, UNEXPECTED, NO_INVOKE_NAME, NO_PARAM_NAME, SkipBlanks, INVOKE, PARAMETER, TOOL_CALLS, NAME, STRING, TRUE;
    var t := tag + rest;
    TagEnds(tag, rest);
    assert t[..|tag|] == tag;
    StructuralStep(raw, c);
  }

  lemma {:induction false} TagEnds(tag: bytes, rest: bytes)
    requires tag != [] && tag[|tag| - 1] == GT && GT !in tag[..|tag| - 1] && NUL !in tag
    ensures FindByte(tag + rest, GT) == Some(|tag| - 1)
  {
    var t := tag + rest;
    assert t[0] == tag[0];
    if |tag| > 1 {
      var front := tag[..|tag| - 1];
      assert tag[0] == front[0] && front[0] in front && t[1..] == tag[1..] + rest;
      assert tag[1..][..|tag| - 2] == front[1..];
      TagEnds(tag[1..], rest);
    }
  }
}
