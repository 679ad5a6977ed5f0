// Regrading a trace (ds4_eval.c:3152-3162, 3216-3325). The answer extractor and the
// answer comparison are given functions; the trace is one the writer made.

module Regrade {
  import opened Bytes
  import opened TraceWriter
  import opened TraceScanner
  import opened TraceRoundTrip

  const SOURCE_SIZE: nat := 64
  const ID_SIZE: nat := 128
  const STATUS_SIZE: nat := 32
  const ANSWER_MAX: nat := 32
  const PASSED: bytes := Ascii("PASSED")
  const FAILED: bytes := Ascii("FAILED")

  /** An embedded benchmark case. */
  datatype EvalCase = EvalCase(source: bytes, id: bytes, answer: bytes)

  /** `find_case_answer` and `answer_matches`. */
  datatype Scorer = Scorer(find: (EvalCase, bytes) -> bytes, matches: (EvalCase, bytes) -> bool)

  datatype Verdict = ParseError | Unknown | NotGraded | Graded(ok: bool, changed: bool)

  datatype Tally = Tally(total: nat, passed: nat, failed: nat, changed: nat, notGraded: nat, unknown: nat, parseErrors: nat)

  const NOTHING: Tally := Tally(0, 0, 0, 0, 0, 0, 0)

  function Add(t: Tally, v: Verdict): Tally {
    var u := t.(total := t.total + 1);
    match v
    case ParseError => u.(parseErrors := u.parseErrors + 1)
    case Unknown => u.(unknown := u.unknown + 1)
    case NotGraded => u.(notGraded := u.notGraded + 1)
    case Graded(ok, changed) =>
      var w := if changed then u.(changed := u.changed + 1) else u;
      if ok then w.(passed := w.passed + 1) else w.(failed := w.failed + 1)
  }

  /** `find_eval_case_by_source_id`. */
  function FindEvalCase(table: seq<EvalCase>, source: bytes, id: bytes): Option<EvalCase> {
    if table == [] then None
    else if table[0].source == source && table[0].id == id then Some(table[0])
    else FindEvalCase(table[1..], source, id)
  }

  predicate Gradeable(status: bytes) {
    status == [] || status == PASSED || status == FAILED
  }

  /** `regrade_case_outcome` and the comparison with what the trace says. */
  function Grade(g: Scorer, tc: EvalCase, status: bytes, pick: bytes, output: bytes): Verdict {
    if !Gradeable(status) then NotGraded
    else
      var got := g.find(tc, output);
      var ok := g.matches(tc, got);
      Graded(ok, (status != [] && ok != (status == PASSED)) || (pick != [] && got != pick))
  }

  /** The C string that a field's buffer holds. */
  function Held(field: Option<bytes>): bytes {
    CText(field.GetOr([]))
  }

  /** The verdict on one case of a file. */
  function Judge(table: seq<EvalCase>, g: Scorer, s: bytes): Verdict {
    var source := Field(s, SOURCE, SOURCE_SIZE);
    var id := Field(s, ID, ID_SIZE);
    if source.None? || id.None? then ParseError
    else match FindEvalCase(table, Held(source), Held(id))
      case None => Unknown
      case Some(tc) =>
        match ModelOutput(s)
        case None => ParseError
        case Some(output) =>
          Grade(g, tc, Held(Field(s, STATUS, STATUS_SIZE)), Held(Field(s, PICKED, ANSWER_MAX)), CText(output))
  }

  /** Where the case that starts `s` ends: at the next case header, or with the text. */
  function CaseEnd(s: bytes): (e: nat)
    ensures e <= |s| && (s != [] ==> e > 0)
  {
    match FindCase(s[NextLine(s)..]) case None => |s| case Some(k) => NextLine(s) + k
  }

  function RegradeFrom(table: seq<EvalCase>, g: Scorer, s: bytes, t: Tally): Tally
    decreases |s|
  {
    match FindCase(s)
    case None => t
    case Some(a) =>
      var e := CaseEnd(s[a..]);
      RegradeFrom(table, g, s[a + e..], Add(t, Judge(table, g, s[a..][..e])))
  }

  // ---------------------------------------------------------------- the loop

  method FindCaseBySourceId(table: seq<EvalCase>, source: bytes, id: bytes) returns (r: Option<EvalCase>)
    ensures r == FindEvalCase(table, source, id)
  {
    assert table[0..] == table;
    for i := 0 to |table|
      invariant FindEvalCase(table[i..], source, id) == FindEvalCase(table, source, id)
    {
      assert table[i..][0] == table[i] && table[i..][1..] == table[i + 1..];
      if table[i].source == source && table[i].id == id { return Some(table[i]); }
    }
    return None;
  }

  method JudgeCase(table: seq<EvalCase>, g: Scorer, text: bytes, start: nat) returns (v: Verdict)
    requires start <= |text|
    ensures v == Judge(table, g, text[start..])
  {
    hide Field, ModelOutput, CText, FindEvalCase, SOURCE, ID, STATUS, PICKED, Grade;
    var source := GetLineField(text, start, SOURCE, SOURCE_SIZE);
    var id := GetLineField(text, start, ID, ID_SIZE);
    if source.None? || id.None? { return ParseError; }
    var status := GetLineField(text, start, STATUS, STATUS_SIZE);
    var pick := GetLineField(text, start, PICKED, ANSWER_MAX);
    var tc := FindCaseBySourceId(table, Held(source), Held(id));
    if tc.None? { return Unknown; }
    var output := CopyModelOutput(text, start);
    if output.None? { return ParseError; }
    return Grade(g, tc.value, Held(status), Held(pick), CText(output.value));
  }

  /** `regrade_trace_file`. */
  method RegradeTrace(table: seq<EvalCase>, g: Scorer, text: bytes) returns (t: Tally, status: nat)
    ensures t == RegradeFrom(table, g, text, NOTHING)
    ensures status == if t.unknown > 0 || t.parseErrors > 0 || t.total == 0 then 1 else 0
  {
    hide FindCase, LineEnd, Judge, Add;
    t := NOTHING;
    var start := 0;
    assert text[0..] == text;
    var caseStart := FindNextCase(text, start);
    while caseStart.Some?
      invariant start <= |text|
      invariant caseStart == Shift(FindCase(text[start..]), start)
      invariant RegradeFrom(table, g, text[start..], t) == RegradeFrom(table, g, text, NOTHING)
      decreases |text| - start
    {
      var a := caseStart.value;
      DropDrop(text, start, a);
      var lineEnd := FindLineEnd(text, a);
      var afterHeader := if lineEnd < |text| then lineEnd + 1 else |text|;
      DropDrop(text, a, afterHeader);
      var next := FindNextCase(text, afterHeader);
      var caseEnd := if next.Some? then next.value else |text|;
      assert caseEnd == a + CaseEnd(text[a..]);
      var v := JudgeCase(table, g, text[..caseEnd], a);
      assert text[..caseEnd][a..] == text[a..][..caseEnd - a];
      DropDrop(text, start, caseEnd);
      t := Add(t, v);
      start := caseEnd;
      caseStart := FindNextCase(text, start);
    }
    status := if t.unknown > 0 || t.parseErrors > 0 || t.total == 0 then 1 else 0;
  }

  // ---------------------------------------------------------------- what was written

  /**
   * A line whose text may hold line feeds, as the choices of a case may: none of the lines
   * it comes out as can be taken for a block, nor a later one for a case or the output.
   */
  ghost predicate CleanText(l: bytes) {
    var ds := Broken(l);
    && (forall d :: d in ds ==> CleanLine(d))
    && (forall d :: d in ds[1..] ==> !(CASE <= d) && !(OUTPUT_BEGIN <= d))
  }

  /** The fields and texts of a record are lines and C strings the format can carry. */
  ghost predicate Clean(r: Record) {
    && CleanLine(HeaderLine(r)) && (forall l :: l in HeadLines(r) ==> CleanLine(l))
    && (forall l :: l in DetailLines(r) ==> CleanText(l))
    && NUL !in r.source && NUL !in r.id && NUL !in r.status && NUL !in r.picked && NUL !in r.output
    && |r.system| <= ULL_MAX && |r.question| <= ULL_MAX && |r.output| <= ULL_MAX
  }

  ghost predicate CleanPreamble(ls: seq<bytes>) {
    forall l :: l in ls ==> CleanLine(l) && !(CASE <= l)
  }

  /** The verdict a record calls for, with no file in between. */
  function Recorded(table: seq<EvalCase>, g: Scorer, r: Record): Verdict {
    match FindEvalCase(table, Span(r.source, SOURCE_SIZE), Span(r.id, ID_SIZE))
    case None => Unknown
    case Some(tc) => Grade(g, tc, Span(r.status, STATUS_SIZE), Span(PrintedPick(r.picked), ANSWER_MAX), r.output)
  }

  function Recount(table: seq<EvalCase>, g: Scorer, rs: seq<Record>, t: Tally): Tally {
    if rs == [] then t else Recount(table, g, rs[1..], Add(t, Recorded(table, g, rs[0])))
  }

  // ---------------------------------------------------------------- the shape of a case

  /** Metadata lines start with a small letter or a space. */
  predicate StartsSmall(l: bytes) {
    l != [] && (l[0] == SPACE || 0x61 <= l[0] <= 0x7A)
  }

  lemma NamedStartsSmall(name: string, value: bytes)
    requires forall i :: 0 <= i < |name| ==> name[i] < 128 as char
    requires name != "" && 'a' <= name[0] <= 'z'
    ensures StartsSmall(Named(name, value)) && Named(name, value)[0] == name[0] as byte
  {
    assert Ascii(name)[0] == name[0] as byte;
  }

  lemma DetailsStartSmall(r: Record)
    ensures forall l :: l in DetailLines(r) ==> StartsSmall(l)
  {
    hide StartsSmall, Named;
    NamedStartsSmall("expected", r.expected);
    NamedStartsSmall("prompt_tokens", Decimal(r.promptTokens));
    NamedStartsSmall("generated_tokens", Decimal(r.generatedTokens));
    NamedStartsSmall("elapsed_sec", r.elapsed);
    NamedStartsSmall("temperature", r.temperature);
    NamedStartsSmall("top_p", r.topP);
    NamedStartsSmall("min_p", r.minP);
    NamedStartsSmall("think_mode_effective", r.thinkMode);
    NamedStartsSmall("error", r.error);
    CloseStartsSmall(r.close);
    ChoicesStartSmall(r.choices);
  }

  lemma CloseStartsSmall(close: Option<Close>)
    ensures forall l :: l in CloseLines(close) ==> StartsSmall(l)
  {
    hide StartsSmall, Named;
    match close {
      case None => NamedStartsSmall("think_close", Ascii("none"));
      case Some(c) =>
        NamedStartsSmall("think_close", c.kind);
        NamedStartsSmall("think_close_token_index", c.token);
        NamedStartsSmall("think_close_remaining_budget", c.remaining);
        NamedStartsSmall("think_close_rank", c.rank);
    }
  }

  lemma ChoicesStartSmall(choices: seq<bytes>)
    ensures forall l :: l in ChoiceLines(choices) ==> StartsSmall(l)
  {
    hide Named;
    if choices == [] {
      NamedStartsSmall("answer_kind", Ascii("exact_integer"));
    } else {
      var ls := ChoiceLines(choices);
      forall i | 0 <= i < |ls| ensures StartsSmall(ls[i]) {
      }
    }
  }

  /** The first bytes of the lines that hold the fields, and of the keys. */
  lemma FieldLineStarts(r: Record)
    ensures HeaderLine(r)[0] == 0x3D
    ensures Named("timestamp_unix", r.timestamp)[0] == 0x74 && Named("domain", r.domain)[0] == 0x64 && Named("title", r.title)[0] == 0x74
    ensures |SOURCE| > 1 && SOURCE[0] == 0x73 && SOURCE[1] == 0x6F && |STATUS| > 1 && STATUS[0] == 0x73 && STATUS[1] == 0x74
    ensures ID != [] && ID[0] == 0x69 && PICKED != [] && PICKED[0] == 0x70
    ensures LF !in SOURCE && LF !in ID && LF !in STATUS && LF !in PICKED
  {
    NamedStartsSmall("timestamp_unix", r.timestamp);
    NamedStartsSmall("domain", r.domain);
    NamedStartsSmall("title", r.title);
  }

  lemma HeadStartsSmall(r: Record)
    ensures forall l :: l in HeadLines(r) ==> StartsSmall(l)
  {
    hide Named, HeaderLine, SOURCE, ID, STATUS, PICKED;
    FieldLineStarts(r);
    NamedStartsSmall("timestamp_unix", r.timestamp);
    NamedStartsSmall("domain", r.domain);
    NamedStartsSmall("title", r.title);
  }

  /** The lines that the metadata behind the pick comes out as. */
  function DetailText(r: Record): seq<bytes> {
    BrokenLines(DetailLines(r))
  }

  lemma StartsNeither(l: bytes)
    requires StartsSmall(l)
    ensures !(CASE <= l) && !(OUTPUT_BEGIN <= l)
  {
    hide CASE, OUTPUT_BEGIN;
    LabelSizes();
  }

  /** No line behind the pick can be taken for a block, a case or the output. */
  lemma DetailIsClean(r: Record)
    requires Clean(r)
    ensures forall d :: d in DetailText(r) ==> CleanLine(d) && !(CASE <= d) && !(OUTPUT_BEGIN <= d)
  {
    hide DetailLines, HeadLines, HeaderLine, CASE, OUTPUT_BEGIN, CleanLine, Broken;
    DetailsStartSmall(r);
    forall d | d in DetailText(r) ensures CleanLine(d) && !(CASE <= d) && !(OUTPUT_BEGIN <= d) {
      var l := InBroken(d, DetailLines(r));
      assert CleanText(l);
      BrokenHasNoLF(l);
      var ds := Broken(l);
      assert ds[0][0] == l[0];
      StartsNeither(ds[0]);
      assert d == ds[0] || d in ds[1..];
    }
  }

  /** A metadata line without a line feed or a begin marker is clean, and a choice with a line feed is if its lines are. */
  lemma TwoLines(a: bytes, b: bytes)
    requires LF !in a
    ensures Broken(a + [LF] + b) == [a] + Broken(b)
    ensures CleanLine(a) ==> CleanText(a)
    ensures CleanLine(a) && CleanText(b) && !(CASE <= Broken(b)[0]) && !(OUTPUT_BEGIN <= Broken(b)[0]) ==> CleanText(a + [LF] + b)
  {
    hide Broken, CleanLine, CASE, OUTPUT_BEGIN;
    BrokenAt(a, b);
    var ds := Broken(b);
    assert forall d :: d in ds ==> d == ds[0] || d in ds[1..];
    assert ([a] + ds)[1..] == ds;
  }

  lemma BlockNamesAreGood()
    ensures GoodName(SYSTEM_PROMPT) && GoodName(QUESTION_PROMPT) && GoodName(MODEL_OUTPUT)
    ensures SYSTEM_PROMPT != [] && QUESTION_PROMPT != [] && MODEL_OUTPUT != []
    ensures SYSTEM_PROMPT[0] == 0x53 && QUESTION_PROMPT[0] == 0x51 && MODEL_OUTPUT[0] == 0x4D
  {
    hide FindSub;
    assert BEGIN[0] == 0x5F && BEGIN[1] == 0x42;
    NameIsGood(SYSTEM_PROMPT);
    NameIsGood(QUESTION_PROMPT);
    NameIsGood(MODEL_OUTPUT);
  }

  /** A name in which no underscore is followed by a B is found before the begin marker. */
  lemma NameIsGood(name: bytes)
    requires 0 < |name| <= LABEL_MAX && LF !in name && NUL !in name && name[|name| - 1] != 0x5F
    requires forall i :: 0 <= i < |name| - 1 && name[i] == 0x5F ==> name[i + 1] != 0x42
    requires |BEGIN| > 1 && BEGIN[0] == 0x5F && BEGIN[1] == 0x42
    ensures GoodName(name)
  {
    hide FindSub, BEGIN;
    var l := name + BEGIN;
    assert l[|name|..] == BEGIN;
    forall i | 0 <= i < |name| ensures !(BEGIN <= l[i..]) {
      assert l[i..][0] == l[i] && l[i..][1] == l[i + 1];
    }
    FindSubExact(l, BEGIN, |name|);
  }

  // ---------------------------------------------------------------- reading one case

  function Blocks(r: Record): seq<Piece> {
    [Block(SYSTEM_PROMPT, r.system), Block(QUESTION_PROMPT, r.question), Block(MODEL_OUTPUT, r.output), Line([])]
  }

  lemma LinesConcat(a: seq<bytes>, b: seq<bytes>)
    ensures Lines(a + b) == Lines(a) + Lines(b)
  {
  }

  /** The lines of the metadata as a reader sees them. */
  function SeenLines(r: Record): seq<bytes> {
    HeadLines(r) + DetailText(r)
  }

  /** The body of a case, line by line as a reader sees it. */
  lemma BodyText(r: Record)
    ensures Render(Body(r)) == Render(Lines(SeenLines(r)) + Blocks(r))
  {
    hide HeadLines, DetailLines, Blocks, Render, Lines, BrokenLines;
    BodyIs(r);
    RenderConcat(Lines(MetaLines(r)), Blocks(r));
    RenderConcat(Lines(SeenLines(r)), Blocks(r));
    RenderMore(HeadLines(r), DetailLines(r));
    RenderMore(HeadLines(r), DetailText(r));
    BreakLinesKeepsText(DetailLines(r));
  }

  lemma CaseIs(r: Record)
    ensures CaseText(r) == Render(Lines([HeaderLine(r)] + SeenLines(r)) + Blocks(r))
  {
    hide HeaderLine, SeenLines, Body, Blocks;
    BodyText(r);
    var whole := Lines([HeaderLine(r)] + SeenLines(r)) + Blocks(r);
    assert whole[0] == Line(HeaderLine(r)) && whole[1..] == Lines(SeenLines(r)) + Blocks(r);
  }

  lemma CaseParts(r: Record, before: seq<bytes>, l: bytes, after: seq<bytes>)
    requires [HeaderLine(r)] + SeenLines(r) == before + ([l] + after)
    ensures CaseText(r) == Render(Lines(before)) + (l + [LF] + (Render(Lines(after)) + Render(Blocks(r))))
  {
    hide HeaderLine, SeenLines, Blocks, CaseText, Render, Lines;
    CaseIs(r);
    RenderConcat(Lines(before + ([l] + after)), Blocks(r));
    RenderMore(before, [l] + after);
    RenderCons(l, after);
    Associative(Render(Lines(before)), l + [LF] + Render(Lines(after)), Render(Blocks(r)));
    Associative(l + [LF], Render(Lines(after)), Render(Blocks(r)));
  }

  lemma BodyIs(r: Record)
    ensures Body(r) == Lines(MetaLines(r)) + Blocks(r)
  {
    hide MetaLines;
  }

  lemma FieldFound(r: Record, before: seq<bytes>, key: bytes, value: bytes, after: seq<bytes>, size: nat)
    requires [HeaderLine(r)] + SeenLines(r) == before + ([key + value] + after)
    requires size > 0 && forall l :: l in before ==> LF !in l && !(key <= l)
    requires LF !in key + value
    ensures Field(CaseText(r), key, size) == Some(Span(value, size))
  {
    hide HeaderLine, SeenLines, Blocks, Field, Span, CaseText;
    CaseParts(r, before, key + value, after);
    var rest := Render(Lines(after)) + Render(Blocks(r));
    FieldScanPasses(before, key + value + [LF] + rest, key, size);
    assert LF !in key by { assert forall i :: 0 <= i < |key| ==> key[i] == (key + value)[i]; }
    assert LF !in value by { assert forall i :: 0 <= i < |value| ==> value[i] == (key + value)[|key| + i]; }
    FieldIsRead(key, value, rest, size);
  }

  lemma LinesHaveNoLF(r: Record)
    requires Clean(r)
    ensures LF !in HeaderLine(r) && forall l :: l in HeadLines(r) ==> LF !in l
  {
  }

  /** The four fields the regrader reads are the ones the writer printed. */
  lemma FieldsAreRead(r: Record)
    requires Clean(r)
    ensures Field(CaseText(r), SOURCE, SOURCE_SIZE) == Some(Span(r.source, SOURCE_SIZE))
    ensures Field(CaseText(r), ID, ID_SIZE) == Some(Span(r.id, ID_SIZE))
    ensures Field(CaseText(r), STATUS, STATUS_SIZE) == Some(Span(r.status, STATUS_SIZE))
    ensures Field(CaseText(r), PICKED, ANSWER_MAX) == Some(Span(PrintedPick(r.picked), ANSWER_MAX))
  {
    hide HeaderLine, Clean, Field, Span, CaseText, SOURCE, ID, STATUS, PICKED, Named, DetailText, PrintedPick;
    LinesHaveNoLF(r);
    FieldLineStarts(r);
    var h, t := HeaderLine(r), Named("timestamp_unix", r.timestamp);
    var d, n := Named("domain", r.domain), Named("title", r.title);
    var source, id, status := SOURCE + r.source, ID + r.id, STATUS + r.status;
    var picked := PICKED + PrintedPick(r.picked);
    var rest := DetailText(r);
    var meta := SeenLines(r);
    assert forall i :: 0 <= i < 7 ==> meta[i] == HeadLines(r)[i] && LF !in meta[i];
    assert meta[0] == t && meta[1] == source && meta[2] == id && meta[3] == d && meta[4] == n && meta[5] == status && meta[6] == picked;
    assert [h] + meta == [h, t] + ([source] + ([id, d, n, status, picked] + rest));
    FieldFound(r, [h, t], SOURCE, r.source, [id, d, n, status, picked] + rest, SOURCE_SIZE);
    assert [h] + meta == [h, t, source] + ([id] + ([d, n, status, picked] + rest));
    FieldFound(r, [h, t, source], ID, r.id, [d, n, status, picked] + rest, ID_SIZE);
    assert [h] + meta == [h, t, source, id, d, n] + ([status] + ([picked] + rest));
    FieldFound(r, [h, t, source, id, d, n], STATUS, r.status, [picked] + rest, STATUS_SIZE);
    assert [h] + meta == [h, t, source, id, d, n, status] + ([picked] + rest);
    FieldFound(r, [h, t, source, id, d, n, status], PICKED, PrintedPick(r.picked), rest, ANSWER_MAX);
  }

  /** The model output comes back byte for byte, whatever trace-like text it holds. */
  lemma OutputIsRead(r: Record)
    requires Clean(r)
    ensures ModelOutput(CaseText(r)) == Some(r.output)
  {
    hide HeaderLine, SeenLines, FindBlock, OutputOf, OUTPUT_BEGIN, Unlike, Plain, Written, SYSTEM_PROMPT, QUESTION_PROMPT, MODEL_OUTPUT;
    var before := Lines([HeaderLine(r)] + SeenLines(r)) + Blocks(r)[..2];
    var out := Written(Block(MODEL_OUTPUT, r.output));
    var last := Written(Line([]));
    BeforeOutputIsPlain(r);
    BeforeOutput(r);
    BlockScanPasses(before, out + last, OUTPUT_BEGIN);
    assert FindBlock(out + last, OUTPUT_BEGIN) == Some(0) by { OutputStarts(r.output, last); }
    assert CaseText(r)[|Render(before)|..] == out + last;
    OutputIsCopied(r.output, last);
  }

  lemma OutputStarts(text: bytes, rest: bytes)
    ensures FindBlock(Written(Block(MODEL_OUTPUT, text)) + rest, OUTPUT_BEGIN) == Some(0)
  {
    hide BEGIN, END, Decimal, Terminated, LineEnd, MODEL_OUTPUT, OUTPUT_BEGIN, SkipBlock;
    LabelSizes();
    AfterBegin(MODEL_OUTPUT, text, rest);
    FirstLine(MODEL_OUTPUT + BEGIN + Decimal(|text|), Terminated(text) + (MODEL_OUTPUT + END + [LF]) + rest);
    OutputLineHasBytes(Decimal(|text|));
  }

  lemma BeforeOutput(r: Record)
    ensures CaseText(r) == Render(Lines([HeaderLine(r)] + SeenLines(r)) + Blocks(r)[..2])
                           + (Written(Block(MODEL_OUTPUT, r.output)) + Written(Line([])))
  {
    hide HeaderLine, SeenLines, Written, CaseText, SYSTEM_PROMPT, QUESTION_PROMPT, MODEL_OUTPUT;
    var all := Lines([HeaderLine(r)] + SeenLines(r));
    CaseIs(r);
    var whole := all + Blocks(r);
    var last := [Block(MODEL_OUTPUT, r.output), Line([])];
    assert whole == (all + Blocks(r)[..2]) + last;
    RenderConcat(all + Blocks(r)[..2], last);
    assert last[1..] == [Line([])] && last[1..][1..] == [];
    assert Render(last) == Written(last[0]) + Render(last[1..]);
    assert Render(last[1..]) == Written(Line([])) + [];
  }

  lemma BeforeOutputIsPlain(r: Record)
    requires Clean(r)
    ensures forall p :: p in Lines([HeaderLine(r)] + SeenLines(r)) + Blocks(r)[..2] ==> Plain(p) && Unlike(p, OUTPUT_BEGIN)
  {
    hide HeaderLine, HeadLines, DetailText, CleanLine, OUTPUT_BEGIN, GoodName, BEGIN, Decimal, SYSTEM_PROMPT, QUESTION_PROMPT, MODEL_OUTPUT;
    HeadStartsSmall(r);
    DetailIsClean(r);
    FieldLineStarts(r);
    BlockNamesAreGood();
    LabelSizes();
    var ls := [HeaderLine(r)] + SeenLines(r);
    forall p | p in Lines(ls) ensures Plain(p) && Unlike(p, OUTPUT_BEGIN) {
      assert p.text in ls;
    }
    forall p | p in Blocks(r)[..2] ensures Plain(p) && Unlike(p, OUTPUT_BEGIN) {
      assert (p.name + BEGIN + Decimal(|p.text|))[0] == p.name[0];
    }
  }

  /** The body of a case holds no other case header, whatever its texts hold. */
  lemma BodyIsPassed(r: Record, rest: bytes)
    requires Clean(r)
    ensures FindCase(Render(Body(r)) + rest) == Shift(FindCase(rest), |Render(Body(r))|)
  {
    hide HeadLines, DetailText, CleanLine, CASE, GoodName, FindCase, Body, SYSTEM_PROMPT, QUESTION_PROMPT, MODEL_OUTPUT;
    BodyText(r);
    HeadStartsSmall(r);
    DetailIsClean(r);
    BlockNamesAreGood();
    LabelSizes();
    EmptyLineIsClean();
    forall p | p in Lines(SeenLines(r)) ensures Plain(p) && Unlike(p, CASE) {
      assert p.text in SeenLines(r);
    }
    CaseScanPasses(Lines(SeenLines(r)) + Blocks(r), rest);
  }

  lemma EmptyLineIsClean()
    ensures CleanLine([])
  {
  }

  lemma HeaderIsFound(r: Record, rest: bytes)
    requires Clean(r)
    ensures FindCase(CaseText(r) + rest) == Some(0)
    ensures NextLine(CaseText(r) + rest) == |HeaderLine(r)| + 1
    ensures (CaseText(r) + rest)[|HeaderLine(r)| + 1..] == Render(Body(r)) + rest
  {
    hide HeaderLine, Body, SkipBlock, LineEnd, CASE, MetaLines;
    var l := HeaderLine(r);
    LinesHaveNoLF(r);
    var tail := Render(Body(r)) + rest;
    Associative(l + [LF], Render(Body(r)), rest);
    FirstLine(l, tail);
    CleanLineIsNoBlock(l, tail);
    HeaderHasMarker(r);
  }

  lemma HeaderHasMarker(r: Record)
    ensures CASE <= HeaderLine(r)
  {
    hide CASE, CASE_END, Decimal;
  }

  /** The scanner finds the written case whole. */
  lemma CaseIsFoundWhole(r: Record, rest: bytes)
    requires Clean(r) && (rest == [] || FindCase(rest) == Some(0))
    ensures CaseEnd(CaseText(r) + rest) == |CaseText(r)|
  {
    hide HeaderLine, Body, FindCase, Clean;
    HeaderIsFound(r, rest);
    BodyIsPassed(r, rest);
    if rest == [] { NothingLeft([0], 1); }
  }

  lemma CaseIsJudged(table: seq<EvalCase>, g: Scorer, r: Record)
    requires Clean(r)
    ensures Judge(table, g, CaseText(r)) == Recorded(table, g, r)
  {
    hide Field, ModelOutput, CaseText, SOURCE, ID, STATUS, PICKED, CText, TrimEnd, FindEvalCase, Grade;
    FieldsAreRead(r);
    OutputIsRead(r);
    CTextIs(r.output);
    SpanHasNoNul(r.source, SOURCE_SIZE);
    SpanHasNoNul(r.id, ID_SIZE);
    SpanHasNoNul(r.status, STATUS_SIZE);
    assert NUL !in PrintedPick(r.picked);
    SpanHasNoNul(PrintedPick(r.picked), ANSWER_MAX);
  }

  lemma SpanHasNoNul(s: bytes, size: nat)
    requires NUL !in s && size > 0
    ensures CText(Span(s, size)) == Span(s, size)
  {
    TrimEndIsPrefix(s);
    CTextIs(Span(s, size));
  }

  lemma {:induction false} TrimEndIsPrefix(s: bytes)
    ensures TrimEnd(s) <= s
  {
    if s != [] { TrimEndIsPrefix(s[..|s| - 1]); }
  }

  // ---------------------------------------------------------------- whole files

  lemma CasesStart(rs: seq<Record>)
    requires forall r :: r in rs ==> Clean(r)
    ensures CasesText(rs) == [] || FindCase(CasesText(rs)) == Some(0)
  {
    hide CaseText, FindCase;
    if rs != [] { HeaderIsFound(rs[0], CasesText(rs[1..])); }
  }

  lemma {:induction false} CasesAreRecounted(table: seq<EvalCase>, g: Scorer, rs: seq<Record>, t: Tally)
    requires forall r :: r in rs ==> Clean(r)
    ensures RegradeFrom(table, g, CasesText(rs), t) == Recount(table, g, rs, t)
  {
    hide CaseText, FindCase, Judge, Recorded, Add, CaseEnd, Clean;
    if rs == [] {
      NothingLeft([0], 1);
    } else {
      var r := rs[0];
      var rest := CasesText(rs[1..]);
      assert forall x :: x in rs[1..] ==> x in rs;
      CasesStart(rs[1..]);
      HeaderIsFound(r, rest);
      CaseIsFoundWhole(r, rest);
      var s := CaseText(r) + rest;
      assert s[0..] == s && s[..|CaseText(r)|] == CaseText(r) && s[|CaseText(r)|..] == rest;
      CaseIsJudged(table, g, r);
      CasesAreRecounted(table, g, rs[1..], Add(t, Recorded(table, g, r)));
    }
  }

  /** The lines of the run's header hold no case. */
  lemma PreambleIsPassed(table: seq<EvalCase>, g: Scorer, preamble: seq<bytes>, s: bytes, t: Tally)
    requires CleanPreamble(preamble)
    ensures RegradeFrom(table, g, Render(Lines(preamble)) + s, t) == RegradeFrom(table, g, s, t)
  {
    hide FindCase, Judge, Add, CaseEnd, CleanLine, CASE;
    var ps := Lines(preamble);
    forall p | p in ps ensures Plain(p) && Unlike(p, CASE) {
    }
    CaseScanPasses(ps, s);
    var before := Render(ps);
    if FindCase(s).Some? {
      var a := FindCase(s).value;
      assert (before + s)[|before| + a..] == s[a..];
      var e := CaseEnd(s[a..]);
      assert (before + s)[|before| + a + e..] == s[a + e..];
    }
  }

  /**
   * Regrading a written trace is recounting what was recorded: every case is found, and
   * no other, and each is graded on its own output, whatever the prompts and outputs hold.
   */
  lemma RegradeIsRecount(table: seq<EvalCase>, g: Scorer, preamble: seq<bytes>, rs: seq<Record>)
    requires CleanPreamble(preamble) && forall r :: r in rs ==> Clean(r)
    ensures RegradeFrom(table, g, FileText(preamble, rs), NOTHING) == Recount(table, g, rs, NOTHING)
  {
    hide RegradeFrom, Recount, CasesText, CleanPreamble, Clean;
    PreambleIsPassed(table, g, preamble, CasesText(rs), NOTHING);
    CasesAreRecounted(table, g, rs, NOTHING);
  }

  // ---------------------------------------------------------------- stability

  function CountStatus(rs: seq<Record>, status: bytes): nat {
    if rs == [] then 0 else (if rs[0].status == status then 1 else 0) + CountStatus(rs[1..], status)
  }

  predicate Distinct(table: seq<EvalCase>) {
    forall i, j :: 0 <= i < j < |table| ==> table[i].source != table[j].source || table[i].id != table[j].id
  }

  /** A field that its buffer holds whole. */
  predicate Fits(s: bytes, size: nat) {
    |s| < size && (s != [] ==> s[|s| - 1] != CR && s[|s| - 1] != LF)
  }

  /** What a run of one embedded case records: a graded answer, or that it was not completed. */
  ghost predicate FromRun(table: seq<EvalCase>, g: Scorer, r: Record) {
    exists tc :: tc in table && RunOf(g, tc, r)
  }

  predicate RunOf(g: Scorer, tc: EvalCase, r: Record) {
    && r.source == tc.source && r.id == tc.id && Fits(r.source, SOURCE_SIZE) && Fits(r.id, ID_SIZE)
    && Fits(r.status, STATUS_SIZE) && Fits(PrintedPick(r.picked), ANSWER_MAX)
    && r.status != []
    && (r.status == PASSED || r.status == FAILED ==>
          && r.picked == g.find(tc, r.output)
          && (r.status == PASSED <==> g.matches(tc, r.picked)))
  }

  /** A graded record whose answer was empty: it is printed as a question mark. */
  predicate EmptyPick(r: Record) {
    (r.status == PASSED || r.status == FAILED) && r.picked == []
  }

  function CountEmpty(rs: seq<Record>): nat {
    if rs == [] then 0 else (if EmptyPick(rs[0]) then 1 else 0) + CountEmpty(rs[1..])
  }

  lemma {:induction false} TableHasCase(table: seq<EvalCase>, tc: EvalCase)
    requires Distinct(table) && tc in table
    ensures FindEvalCase(table, tc.source, tc.id) == Some(tc)
  {
    if table[0] != tc {
      var k :| 0 < k < |table| && table[k] == tc;
      assert table[1..][k - 1] == tc;
      TableHasCase(table[1..], tc);
    }
  }

  lemma SpanFits(s: bytes, size: nat)
    requires size > 0 && Fits(s, size)
    ensures Span(s, size) == s
  {
  }

  lemma StatusesDiffer()
    ensures PASSED != [] && FAILED != [] && PASSED != FAILED
  {
    assert PASSED[0] != FAILED[0];
  }

  lemma RunIsRecorded(table: seq<EvalCase>, g: Scorer, r: Record)
    requires Distinct(table) && FromRun(table, g, r)
    ensures Recorded(table, g, r) ==
            if Gradeable(r.status) then Graded(r.status == PASSED, EmptyPick(r)) else NotGraded
  {
    hide PASSED, FAILED, Span, Fits, FindEvalCase;
    StatusesDiffer();
    var tc :| tc in table && RunOf(g, tc, r);
    TableHasCase(table, tc);
    SpanFits(r.source, SOURCE_SIZE);
    SpanFits(r.id, ID_SIZE);
    SpanFits(r.status, STATUS_SIZE);
    SpanFits(PrintedPick(r.picked), ANSWER_MAX);
  }

  lemma {:induction false} RunsAreRecounted(table: seq<EvalCase>, g: Scorer, rs: seq<Record>, t: Tally)
    requires Distinct(table) && forall r :: r in rs ==> FromRun(table, g, r)
    ensures CountStatus(rs, PASSED) + CountStatus(rs, FAILED) <= |rs|
    ensures var p, f := CountStatus(rs, PASSED), CountStatus(rs, FAILED);
      Recount(table, g, rs, t) == Tally(t.total + |rs|, t.passed + p, t.failed + f, t.changed + CountEmpty(rs),
                                        t.notGraded + (|rs| - p - f), t.unknown, t.parseErrors)
  {
    hide PASSED, FAILED, FromRun, Recorded;
    StatusesDiffer();
    if rs != [] {
      assert forall r :: r in rs[1..] ==> r in rs;
      RunIsRecorded(table, g, rs[0]);
      RunStatus(table, g, rs[0]);
      RunsAreRecounted(table, g, rs[1..], Add(t, Recorded(table, g, rs[0])));
    }
  }

  lemma RunStatus(table: seq<EvalCase>, g: Scorer, r: Record)
    requires FromRun(table, g, r)
    ensures r.status != []
  {
  }

  /**
   * Regrade stability: regrading the trace of any runs, complete or not, gives back the
   * recorded counts, and reports a change for exactly the graded cases whose extracted
   * answer was empty. It reports no change if and only if there is no such case.
   */
  lemma RegradeIsStable(table: seq<EvalCase>, g: Scorer, preamble: seq<bytes>, rs: seq<Record>)
    requires CleanPreamble(preamble) && Distinct(table)
    requires forall r :: r in rs ==> Clean(r) && FromRun(table, g, r)
    ensures var t := RegradeFrom(table, g, FileText(preamble, rs), NOTHING);
      && t.total == |rs| && t.passed == CountStatus(rs, PASSED) && t.failed == CountStatus(rs, FAILED)
      && t.notGraded == t.total - t.passed - t.failed && t.unknown == t.parseErrors == 0
      && t.changed == CountEmpty(rs)
      && (t.changed == 0 <==> forall r :: r in rs ==> !EmptyPick(r))
  {
    hide RegradeFrom, FileText, Clean, FromRun, PASSED, FAILED;
    RegradeIsRecount(table, g, preamble, rs);
    RunsAreRecounted(table, g, rs, NOTHING);
    NoneEmpty(rs);
  }

  // ---------------------------------------------------------------- drift

  /** The answer that a scorer takes from an output, and whether it accepts it. */
  predicate Accepts(g: Scorer, tc: EvalCase, output: bytes) {
    g.matches(tc, g.find(tc, output))
  }

  /** A record of one embedded case, whoever graded it; its status is empty in traces from before the status line. */
  predicate RecordOf(tc: EvalCase, r: Record) {
    && r.source == tc.source && r.id == tc.id && Fits(r.source, SOURCE_SIZE) && Fits(r.id, ID_SIZE)
    && Fits(r.status, STATUS_SIZE) && Fits(PrintedPick(r.picked), ANSWER_MAX)
  }

  /** Only completed answers are graded; a status that is neither verdict says that there was none. */
  predicate Completed(r: Record) {
    r.status == PASSED || r.status == FAILED || r.status == []
  }

  /** What the trace says and what the scorer says differ: the verdict, if there is one, or the pick. */
  predicate Drifts(g: Scorer, tc: EvalCase, r: Record) {
    || (r.status == PASSED && !Accepts(g, tc, r.output))
    || (r.status == FAILED && Accepts(g, tc, r.output))
    || PrintedPick(r.picked) != g.find(tc, r.output)
  }

  /** How many of the first `n` records are such; each is paired with its case. */
  function CountSuch(cases: seq<EvalCase>, rs: seq<Record>, such: (EvalCase, Record) -> bool, n: nat): nat
    requires n <= |rs| == |cases|
  {
    if n == 0 then 0 else CountSuch(cases, rs, such, n - 1) + if such(cases[n - 1], rs[n - 1]) then 1 else 0
  }

  /** The verdict on a record of a case, by what the scorer does with its output. */
  lemma VerdictIs(table: seq<EvalCase>, g: Scorer, tc: EvalCase, r: Record)
    requires Distinct(table) && tc in table && RecordOf(tc, r)
    ensures Recorded(table, g, r) ==
            if Completed(r) then Graded(Accepts(g, tc, r.output), Drifts(g, tc, r)) else NotGraded
  {
    hide PASSED, FAILED, Span, Fits, FindEvalCase;
    StatusesDiffer();
    TableHasCase(table, tc);
    SpanFits(r.source, SOURCE_SIZE);
    SpanFits(r.id, ID_SIZE);
    SpanFits(r.status, STATUS_SIZE);
    SpanFits(PrintedPick(r.picked), ANSWER_MAX);
  }

  /** A case without a status or a pick is graded on its output alone and never reported as changed. */
  lemma OldTraceVerdict(table: seq<EvalCase>, g: Scorer, s: bytes, tc: EvalCase)
    requires Field(s, SOURCE, SOURCE_SIZE).Some? && Field(s, ID, ID_SIZE).Some? && ModelOutput(s).Some?
    requires FindEvalCase(table, Held(Field(s, SOURCE, SOURCE_SIZE)), Held(Field(s, ID, ID_SIZE))) == Some(tc)
    requires Field(s, STATUS, STATUS_SIZE).None? && Field(s, PICKED, ANSWER_MAX).None?
    ensures Judge(table, g, s) == Graded(Accepts(g, tc, CText(ModelOutput(s).value)), false)
  {
    hide Field, ModelOutput, FindEvalCase, SOURCE, ID, STATUS, PICKED;
  }

  lemma {:induction false} RecountAppends(table: seq<EvalCase>, g: Scorer, rs: seq<Record>, r: Record, t: Tally)
    ensures Recount(table, g, rs + [r], t) == Add(Recount(table, g, rs, t), Recorded(table, g, r))
  {
    hide Recorded, Add;
    if rs == [] {
      assert [] + [r] == [r] && [r][1..] == [];
    } else {
      assert (rs + [r])[1..] == rs[1..] + [r];
      RecountAppends(table, g, rs[1..], r, Add(t, Recorded(table, g, rs[0])));
    }
  }

  lemma {:induction false} DriftIsRecounted(table: seq<EvalCase>, g: Scorer, cases: seq<EvalCase>, rs: seq<Record>, n: nat)
    requires n <= |rs| == |cases| && Distinct(table)
    requires forall i :: 0 <= i < |rs| ==> cases[i] in table && RecordOf(cases[i], rs[i])
    ensures var t := Recount(table, g, rs[..n], NOTHING);
      && t.total == n && t.unknown == 0 && t.parseErrors == 0
      && t.passed == CountSuch(cases, rs, (tc, r) => Completed(r) && Accepts(g, tc, r.output), n)
      && t.failed == CountSuch(cases, rs, (tc, r) => Completed(r) && !Accepts(g, tc, r.output), n)
      && t.changed == CountSuch(cases, rs, (tc, r) => Completed(r) && Drifts(g, tc, r), n)
      && t.notGraded == CountSuch(cases, rs, (tc, r) => !Completed(r), n)
  {
    hide RecordOf, Distinct, Recorded, Accepts, Drifts, Completed;
    if n > 0 {
      DriftIsRecounted(table, g, cases, rs, n - 1);
      assert rs[..n] == rs[..n - 1] + [rs[n - 1]];
      RecountAppends(table, g, rs[..n - 1], rs[n - 1], NOTHING);
      VerdictIs(table, g, cases[n - 1], rs[n - 1]);
    } else {
      assert rs[..0] == [];
    }
  }

  /**
   * Regrade drift: a trace of any records of embedded cases, whoever graded them, regraded
   * with any scorer. `passed` counts the completed answers that this scorer accepts and
   * `failed` the other completed ones; `changed` counts exactly those whose recorded
   * verdict or printed pick is not what this scorer says; the rest are not graded.
   */
  lemma RegradeDrift(table: seq<EvalCase>, g: Scorer, preamble: seq<bytes>, cases: seq<EvalCase>, rs: seq<Record>)
    requires CleanPreamble(preamble) && Distinct(table) && |cases| == |rs|
    requires forall i :: 0 <= i < |rs| ==> cases[i] in table && RecordOf(cases[i], rs[i]) && Clean(rs[i])
    ensures var t := RegradeFrom(table, g, FileText(preamble, rs), NOTHING); var n := |rs|;
      && t.total == n && t.unknown == 0 && t.parseErrors == 0
      && t.passed == CountSuch(cases, rs, (tc, r) => Completed(r) && Accepts(g, tc, r.output), n)
      && t.failed == CountSuch(cases, rs, (tc, r) => Completed(r) && !Accepts(g, tc, r.output), n)
      && t.changed == CountSuch(cases, rs, (tc, r) => Completed(r) && Drifts(g, tc, r), n)
      && t.notGraded == CountSuch(cases, rs, (tc, r) => !Completed(r), n)
  {
    hide RegradeFrom, FileText, Clean, RecordOf, Distinct, Recount, Accepts, Drifts, Completed, CountSuch, CleanPreamble;
    RegradeIsRecount(table, g, preamble, rs);
    DriftIsRecounted(table, g, cases, rs, |rs|);
    assert rs[..|rs|] == rs;
  }

  lemma {:induction false} NoneEmpty(rs: seq<Record>)
    ensures CountEmpty(rs) == 0 <==> forall r :: r in rs ==> !EmptyPick(r)
  {
    if rs != [] {
      NoneEmpty(rs[1..]);
      assert forall r :: r in rs <==> r == rs[0] || r in rs[1..];
    }
  }

  // ---------------------------------------------------------------- every case is counted once

  /** Every case that is found is counted once, and only graded ones can have changed. */
  lemma {:induction false} TallyAdds(table: seq<EvalCase>, g: Scorer, s: bytes, t: Tally)
    requires t.total == t.passed + t.failed + t.notGraded + t.unknown + t.parseErrors && t.changed <= t.passed + t.failed
    ensures var u := RegradeFrom(table, g, s, t);
      u.total == u.passed + u.failed + u.notGraded + u.unknown + u.parseErrors && u.changed <= u.passed + u.failed
    decreases |s|
  {
    hide Judge, FindCase, CaseEnd;
    match FindCase(s) {
      case None =>
      case Some(a) =>
        var e := CaseEnd(s[a..]);
        TallyAdds(table, g, s[a + e..], Add(t, Judge(table, g, s[a..][..e])));
    }
  }

  /** No embedded case has this source and id. */
  predicate Foreign(table: seq<EvalCase>, source: bytes, id: bytes) {
    forall tc :: tc in table ==> tc.source != source || tc.id != id
  }

  lemma {:induction false} ForeignIsNotFound(table: seq<EvalCase>, source: bytes, id: bytes)
    ensures FindEvalCase(table, source, id).None? <==> Foreign(table, source, id)
  {
    if table != [] {
      ForeignIsNotFound(table[1..], source, id);
      assert forall tc :: tc in table <==> tc == table[0] || tc in table[1..];
    }
  }

  /**
   * How a case of any file is judged: it is a parse error exactly if its source or id is
   * missing or it is an embedded case without an output; unknown exactly if it names no
   * embedded case; and otherwise graded or, by its status, not.
   */
  lemma JudgedExactly(table: seq<EvalCase>, g: Scorer, s: bytes)
    ensures var source, id := Field(s, SOURCE, SOURCE_SIZE), Field(s, ID, ID_SIZE);
      var named := source.Some? && id.Some?; var foreign := Foreign(table, Held(source), Held(id));
      var status := Held(Field(s, STATUS, STATUS_SIZE)); var v := Judge(table, g, s);
      && (v.ParseError? <==> !named || (!foreign && ModelOutput(s).None?))
      && (v.Unknown? <==> named && foreign)
      && (v.NotGraded? <==> named && !foreign && ModelOutput(s).Some? && status != [] && status != PASSED && status != FAILED)
  {
    hide Field, ModelOutput, FindEvalCase, SOURCE, ID, STATUS, PICKED, PASSED, FAILED, Foreign;
    ForeignIsNotFound(table, Held(Field(s, SOURCE, SOURCE_SIZE)), Held(Field(s, ID, ID_SIZE)));
  }

  function CountForeign(table: seq<EvalCase>, rs: seq<Record>): nat {
    if rs == [] then 0
    else (if Foreign(table, rs[0].source, rs[0].id) then 1 else 0) + CountForeign(table, rs[1..])
  }

  /** In a written trace the cases that no embedded case has are the unknown ones, and nothing is a parse error. */
  lemma ForeignAreUnknown(table: seq<EvalCase>, g: Scorer, preamble: seq<bytes>, rs: seq<Record>)
    requires CleanPreamble(preamble)
    requires forall r :: r in rs ==> Clean(r) && Fits(r.source, SOURCE_SIZE) && Fits(r.id, ID_SIZE)
    ensures var t := RegradeFrom(table, g, FileText(preamble, rs), NOTHING);
      t.total == |rs| && t.unknown == CountForeign(table, rs) && t.parseErrors == 0
  {
    hide RegradeFrom, FileText, Clean, Recount, CleanPreamble, CountForeign, Fits;
    RegradeIsRecount(table, g, preamble, rs);
    ForeignAreCounted(table, g, rs, NOTHING);
  }

  lemma {:induction false} ForeignAreCounted(table: seq<EvalCase>, g: Scorer, rs: seq<Record>, t: Tally)
    requires forall r :: r in rs ==> Fits(r.source, SOURCE_SIZE) && Fits(r.id, ID_SIZE)
    ensures var u := Recount(table, g, rs, t);
      u.total == t.total + |rs| && u.unknown == t.unknown + CountForeign(table, rs) && u.parseErrors == t.parseErrors
  {
    hide Foreign, FindEvalCase, Grade, Span, Fits;
    if rs != [] {
      var r := rs[0];
      assert r in rs && forall x :: x in rs[1..] ==> x in rs;
      SpanFits(r.source, SOURCE_SIZE);
      SpanFits(r.id, ID_SIZE);
      ForeignIsNotFound(table, r.source, r.id);
      GradeKnows(g, r);
      ForeignAreCounted(table, g, rs[1..], Add(t, Recorded(table, g, r)));
    }
  }

  /** Grading never finds a case unknown or unreadable. */
  lemma GradeKnows(g: Scorer, r: Record)
    ensures forall tc, status, pick :: var v := Grade(g, tc, status, pick, r.output); !v.Unknown? && !v.ParseError?
  {
  }
}
