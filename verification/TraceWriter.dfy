// The evaluator's trace file as written (ds4_eval.c:2505-2516, 2587-2666): metadata
// lines, then counted blocks whose text may hold anything. Printed numbers other than
// counters and byte counts are given as the text they print to.

module TraceWriter {
  import opened Bytes

  const COLON_SPACE: bytes := Ascii(": ")
  const BEGIN: bytes := Ascii("_BEGIN bytes=")
  const END: bytes := Ascii("_END")
  const CASE: bytes := Ascii("===== CASE ")
  const CASE_END: bytes := Ascii(" =====")
  const SYSTEM_PROMPT: bytes := Ascii("SYSTEM_PROMPT")
  const QUESTION_PROMPT: bytes := Ascii("QUESTION_PROMPT")
  const MODEL_OUTPUT: bytes := Ascii("MODEL_OUTPUT")
  const SOURCE: bytes := Ascii("source: ")
  const ID: bytes := Ascii("id: ")
  const STATUS: bytes := Ascii("status: ")
  const PICKED: bytes := Ascii("picked: ")
  const NO_PICK: bytes := Ascii("?")

  /** What a trace is made of: a line, or a block with its byte count. */
  datatype Piece = Line(text: bytes) | Block(name: bytes, text: bytes)

  function Terminated(text: bytes): bytes {
    if text != [] && text[|text| - 1] != LF then text + [LF] else text
  }

  function Written(p: Piece): bytes {
    match p
    case Line(text) => text + [LF]
    case Block(name, text) =>
      name + BEGIN + Decimal(|text|) + [LF] + (Terminated(text) + (name + END + [LF]))
  }

  function Render(ps: seq<Piece>): bytes {
    if ps == [] then [] else Written(ps[0]) + Render(ps[1..])
  }

  lemma {:induction false} RenderConcat(a: seq<Piece>, b: seq<Piece>)
    ensures Render(a + b) == Render(a) + Render(b)
  {
    if a == [] {
      assert a + b == b;
    } else {
      assert (a + b)[1..] == a[1..] + b;
      RenderConcat(a[1..], b);
      Associative(Written(a[0]), Render(a[1..]), Render(b));
    }
  }

  function Lines(ls: seq<bytes>): (ps: seq<Piece>)
    ensures |ps| == |ls| && forall i :: 0 <= i < |ls| ==> ps[i] == Line(ls[i])
  {
    seq(|ls|, i requires 0 <= i < |ls| => Line(ls[i]))
  }

  lemma RenderNothing()
    ensures Render([]) == []
  {
  }

  lemma RenderLine(l: bytes)
    ensures Render([Line(l)]) == l + [LF]
  {
    assert [Line(l)][1..] == [];
  }

  /** How thinking was closed, when it was: kind, token index, remaining budget, rank. */
  datatype Close = Close(kind: bytes, token: bytes, remaining: bytes, rank: bytes)

  /** What one case leaves in the trace. */
  datatype Record = Record(
    index: nat, ncases: nat, timestamp: bytes,
    source: bytes, id: bytes, domain: bytes, title: bytes,
    status: bytes, picked: bytes, expected: bytes,
    promptTokens: nat, generatedTokens: nat, elapsed: bytes,
    temperature: bytes, topP: bytes, minP: bytes, thinkMode: bytes,
    close: Option<Close>, error: bytes, choices: seq<bytes>,
    system: bytes, question: bytes, output: bytes)

  /** The pick as printed: an empty one becomes a question mark. */
  function PrintedPick(picked: bytes): bytes {
    if picked == [] then NO_PICK else picked
  }

  function HeaderLine(r: Record): bytes {
    CASE + (Decimal(r.index + 1) + [SLASH] + Decimal(r.ncases) + [SPACE] + r.source + [SLASH] + r.id + CASE_END)
  }

  function Named(name: string, value: bytes): bytes
    requires forall i :: 0 <= i < |name| ==> name[i] < 128 as char
  {
    Ascii(name) + (COLON_SPACE + value)
  }

  function CloseLines(close: Option<Close>): seq<bytes> {
    match close
    case None => [Named("think_close", Ascii("none"))]
    case Some(c) => [Named("think_close", c.kind), Named("think_close_token_index", c.token),
                     Named("think_close_remaining_budget", c.remaining), Named("think_close_rank", c.rank)]
  }

  function ChoiceLines(choices: seq<bytes>): seq<bytes> {
    if choices == [] then [Named("answer_kind", Ascii("exact_integer"))]
    else [Ascii("choices:")] + seq(|choices|, i requires 0 <= i < |choices| =>
                                     [SPACE, SPACE, ((0x41 + i) % 256) as byte] + Ascii(". ") + choices[i])
  }

  /** The metadata lines after the one that names the pick. */
  function DetailLines(r: Record): seq<bytes> {
    [Named("expected", r.expected), Named("prompt_tokens", Decimal(r.promptTokens)),
     Named("generated_tokens", Decimal(r.generatedTokens)), Named("elapsed_sec", r.elapsed),
     Named("temperature", r.temperature), Named("top_p", r.topP), Named("min_p", r.minP),
     Named("think_mode_effective", r.thinkMode)]
    + CloseLines(r.close)
    + (if r.error != [] then [Named("error", r.error)] else [])
    + ChoiceLines(r.choices)
  }

  /** The metadata lines up to the one that names the pick. */
  function HeadLines(r: Record): seq<bytes> {
    [Named("timestamp_unix", r.timestamp), SOURCE + r.source, ID + r.id,
     Named("domain", r.domain), Named("title", r.title),
     STATUS + r.status, PICKED + PrintedPick(r.picked)]
  }

  /** The metadata lines after the header line. */
  function MetaLines(r: Record): seq<bytes> {
    HeadLines(r) + DetailLines(r)
  }

  function Body(r: Record): seq<Piece> {
    Lines(MetaLines(r))
    + [Block(SYSTEM_PROMPT, r.system), Block(QUESTION_PROMPT, r.question), Block(MODEL_OUTPUT, r.output), Line([])]
  }

  function CaseText(r: Record): bytes {
    Written(Line(HeaderLine(r))) + Render(Body(r))
  }

  function CasesText(rs: seq<Record>): bytes {
    if rs == [] then [] else CaseText(rs[0]) + CasesText(rs[1..])
  }

  /** A trace: the lines of the run's header, then its cases. */
  function FileText(preamble: seq<bytes>, rs: seq<Record>): bytes {
    Render(Lines(preamble)) + CasesText(rs)
  }

  /** The trace file; every method appends to it. */
  class Trace {
    var text: bytes

    /** `trace_write_block`. */
    method WriteBlock(name: bytes, content: bytes)
      modifies this
      ensures text == old(text) + Written(Block(name, content))
    {
      hide BEGIN, END, Decimal;
      var length := |content|;
      ghost var before := text;
      text := text + (name + BEGIN + Decimal(length) + [LF]);
      if length > 0 {
        text := text + content;
        if content[length - 1] != LF { text := text + [LF]; }
      }
      text := text + (name + END + [LF]);
      assert text == before + (name + BEGIN + Decimal(length) + [LF]) + Terminated(content) + (name + END + [LF]);
      Associative(before + (name + BEGIN + Decimal(length) + [LF]), Terminated(content), name + END + [LF]);
      Associative(before, name + BEGIN + Decimal(length) + [LF], Terminated(content) + (name + END + [LF]));
    }

    /** One `fprintf` of whole lines. */
    method WriteLines(ls: seq<bytes>)
      modifies this
      ensures text == old(text) + Render(Lines(ls))
    {
      hide Render;
      ghost var before := text;
      assert Lines(ls)[..0] == [];
      RenderNothing();
      for i := 0 to |ls|
        invariant text == before + Render(Lines(ls)[..i])
      {
        text := text + (ls[i] + [LF]);
        assert Lines(ls)[..i + 1] == Lines(ls)[..i] + [Line(ls[i])];
        RenderConcat(Lines(ls)[..i], [Line(ls[i])]);
        RenderLine(ls[i]);
        Associative(before, Render(Lines(ls)[..i]), ls[i] + [LF]);
      }
      assert Lines(ls)[..|ls|] == Lines(ls);
    }

    /** `trace_write_case`. */
    method WriteCase(r: Record)
      modifies this
      ensures text == old(text) + CaseText(r)
    {
      hide HeaderLine, MetaLines, Written, SYSTEM_PROMPT, QUESTION_PROMPT, MODEL_OUTPUT;
      ghost var before := text;
      WriteLines([HeaderLine(r)]);
      WriteLines(MetaLines(r));
      WriteBlock(SYSTEM_PROMPT, r.system);
      WriteBlock(QUESTION_PROMPT, r.question);
      WriteBlock(MODEL_OUTPUT, r.output);
      WriteLines([[]]);
      CaseTextIs(r);
      ghost var parts := [Render(Lines([HeaderLine(r)])), Render(Lines(MetaLines(r))),
                    Written(Block(SYSTEM_PROMPT, r.system)), Written(Block(QUESTION_PROMPT, r.question)),
                    Written(Block(MODEL_OUTPUT, r.output)), Render(Lines([[]]))];
      Regroup(before, parts[0], parts[1], parts[2], parts[3], parts[4], parts[5]);
    }
  }

  lemma Regroup(z: bytes, a: bytes, b: bytes, c: bytes, d: bytes, e: bytes, f: bytes)
    ensures z + a + b + c + d + e + f == z + (a + (b + (c + (d + (e + f)))))
  {
  }

  lemma CaseTextIs(r: Record)
    ensures CaseText(r) == Render(Lines([HeaderLine(r)])) + (Render(Lines(MetaLines(r)))
                           + (Written(Block(SYSTEM_PROMPT, r.system)) + (Written(Block(QUESTION_PROMPT, r.question))
                              + (Written(Block(MODEL_OUTPUT, r.output)) + Render(Lines([[]]))))))
  {
    hide HeaderLine, MetaLines, Written, SYSTEM_PROMPT, QUESTION_PROMPT, MODEL_OUTPUT;
    var blocks := [Block(SYSTEM_PROMPT, r.system), Block(QUESTION_PROMPT, r.question), Block(MODEL_OUTPUT, r.output), Line([])];
    RenderConcat(Lines(MetaLines(r)), blocks);
    assert blocks[1..][1..][1..] == [Line([])] == Lines([[]]);
    assert Lines([HeaderLine(r)])[1..] == [];
    assert Lines([HeaderLine(r)])[0] == Line(HeaderLine(r));
    assert Render(Lines([HeaderLine(r)])) == Written(Line(HeaderLine(r))) + [];
    assert Render(blocks) == Written(blocks[0]) + Render(blocks[1..]);
    assert Render(blocks[1..]) == Written(blocks[1]) + Render(blocks[1..][1..]);
    assert Render(blocks[1..][1..]) == Written(blocks[2]) + Render(blocks[1..][1..][1..]);
  }
}
