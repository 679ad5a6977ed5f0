// The two simpler users of the think-tag splitter: the evaluation stream with a
// style per visible byte (ds4_eval.c:2103-2150) and the command line's token
// printer with its colour and newline bookkeeping (ds4_cli.c:304-399).

module PlainSplitters {
  import opened Bytes
  import opened TagSplitter

  // ------------------------------------------------------------ evaluation stream

  datatype Eval = Eval(inThink: bool, stream: bytes, styles: seq<nat>)

  function Visible(s: Eval, c: byte): Eval {
    s.(stream := s.stream + [c], styles := s.styles + [if s.inThink then 1 else 0])
  }

  const EVAL_MACHINE: Machine<Eval> := Machine(
    (s: Eval) => false,
    (s: Eval) => s.(inThink := true),
    (s: Eval) => Visible(s.(inThink := false), LF),
    (s: Eval, c: byte) => Visible(s, c))

  class EvalStream {
    var inThink: bool
    var stream: bytes
    var styles: seq<nat>
    var pendingTag: bytes

    function View(): Eval
      reads this
    {
      Eval(inThink, stream, styles)
    }

    /** `stream_append_visible` of one byte. */
    method AppendVisible(c: byte)
      modifies `stream, `styles
      ensures View() == Visible(old(View()), c)
    {
      stream := stream + [c];
      styles := styles + [if inThink then 1 else 0];
    }

    /** `stream_append_token_text`. */
    method AppendTokenText(text: bytes, finish: bool)
      modifies this
      ensures (View(), pendingTag) == Drive(EVAL_MACHINE, old(View()), old(pendingTag) + text, finish)
    {
      hide THINK_OPEN, THINK_CLOSE, HeldBack;
      TagLengths();
      var tmp := pendingTag + text;
      pendingTag := [];
      var i := 0;
      while i < |tmp|
        invariant 0 <= i <= |tmp| && pendingTag == []
        invariant Drive(EVAL_MACHINE, View(), tmp[i..], finish) == Drive(EVAL_MACHINE, old(View()), tmp, finish)
      {
        var cur := tmp[i..];
        if THINK_OPEN <= cur {
          inThink := true;
          assert cur[|THINK_OPEN|..] == tmp[i + |THINK_OPEN|..];
          i := i + |THINK_OPEN|;
          continue;
        }
        if THINK_CLOSE <= cur {
          inThink := false;
          AppendVisible(LF);
          assert cur[|THINK_CLOSE|..] == tmp[i + |THINK_CLOSE|..];
          i := i + |THINK_CLOSE|;
          continue;
        }
        if !finish && HeldBack(cur) {
          pendingTag := cur;
          return;
        }
        AppendVisible(tmp[i]);
        assert cur[1..] == tmp[i + 1..];
        i := i + 1;
      }
    }
  }

  /** The bytes and styles that a whole answer shows. */
  function Shown(inThink: bool, ts: seq<Token>): (bytes, seq<nat>)
    decreases |ts|
  {
    if ts == [] then ([], [])
    else
      match ts[0]
      case Open => Shown(true, ts[1..])
      case Close => var (b, st) := Shown(false, ts[1..]); ([LF] + b, [0] + st)
      case Other(c) => var (b, st) := Shown(inThink, ts[1..]); ([c] + b, [if inThink then 1 else 0] + st)
  }

  lemma {:induction false} ApplyShows(s: Eval, ts: seq<Token>)
    ensures var r := Apply(EVAL_MACHINE, s, ts); var (b, st) := Shown(s.inThink, ts);
      r.stream == s.stream + b && r.styles == s.styles + st
    decreases |ts|
  {
    if ts == [] {
      assert s.stream + [] == s.stream && s.styles + [] == s.styles;
    } else {
      var t := match ts[0] case Open => s.(inThink := true) case Close => Visible(s.(inThink := false), LF) case Other(c) => Visible(s, c);
      ApplyShows(t, ts[1..]);
    }
  }

  /** However the answer is cut, the stream shows its tokens: every byte once, in order, with the style of its side. */
  lemma EvalStreamShows(s: Eval, chunks: seq<bytes>, last: bytes)
    ensures var (s1, held) := DriveChunks(EVAL_MACHINE, s, [], chunks);
      var (b, st) := Shown(s.inThink, Tokens(Concat(chunks) + last));
      var r := Drive(EVAL_MACHINE, s1, held + last, true).0;
      r.stream == s.stream + b && r.styles == s.styles + st
  {
    SplitInvariance(EVAL_MACHINE, s, [], chunks, last);
    assert [] + (Concat(chunks) + last) == Concat(chunks) + last;
    DriveIsApply(EVAL_MACHINE, s, Concat(chunks) + last);
    ApplyShows(s, Tokens(Concat(chunks) + last));
  }

  // ------------------------------------------------------------ token printer

  const GREY: bytes := [0x1B, 0x5B, 0x39, 0x30, 0x6D]
  const RESET: bytes := [0x1B, 0x5B, 0x30, 0x6D]

  datatype Printer = Printer(useColor: bool, inThink: bool, colorOpen: bool, lastNewline: bool, out: bytes)

  function ResetColor(s: Printer): Printer {
    if s.useColor && s.colorOpen then s.(out := s.out + RESET, colorOpen := false) else s
  }

  function SetGrey(s: Printer): Printer {
    if s.useColor && !s.colorOpen then s.(out := s.out + GREY, colorOpen := true) else s
  }

  function WriteChar(s: Printer, c: byte): Printer {
    var t := if s.inThink then SetGrey(s) else s;
    t.(out := t.out + [c], lastNewline := c == LF)
  }

  function CloseThink(s: Printer): Printer {
    var t := ResetColor(s.(inThink := false));
    if t.lastNewline then t else t.(out := t.out + [LF], lastNewline := true)
  }

  const PRINTER_MACHINE: Machine<Printer> := Machine(
    (s: Printer) => false,
    (s: Printer) => s.(inThink := true),
    (s: Printer) => CloseThink(s),
    (s: Printer, c: byte) => WriteChar(s, c))

  class TokenPrinter {
    const useColor: bool
    var inThink: bool
    var colorOpen: bool
    var lastOutputNewline: bool
    var out: bytes
    var pending: bytes

    function View(): Printer
      reads this
    {
      Printer(useColor, inThink, colorOpen, lastOutputNewline, out)
    }

    /** `token_printer_write_char`. */
    method PutChar(c: byte)
      modifies `out, `colorOpen, `lastOutputNewline
      ensures View() == WriteChar(old(View()), c)
    {
      if inThink && useColor && !colorOpen {
        out := out + GREY;
        colorOpen := true;
      }
      out := out + [c];
      lastOutputNewline := c == LF;
    }

    /** What `token_printer_process` does at a closing tag. */
    method LeaveThink()
      modifies `out, `colorOpen, `lastOutputNewline, `inThink
      ensures View() == CloseThink(old(View()))
    {
      inThink := false;
      if useColor && colorOpen {
        out := out + RESET;
        colorOpen := false;
      }
      if !lastOutputNewline {
        out := out + [LF];
        lastOutputNewline := true;
      }
    }

    /** `token_printer_process`. */
    method Process(text: bytes, finish: bool)
      modifies this
      ensures (View(), pending) == Drive(PRINTER_MACHINE, old(View()), old(pending) + text, finish)
    {
      hide THINK_OPEN, THINK_CLOSE, HeldBack, WriteChar, CloseThink;
      TagLengths();
      var buf := pending + text;
      pending := [];
      var i := 0;
      while i < |buf|
        invariant 0 <= i <= |buf| && pending == []
        invariant Drive(PRINTER_MACHINE, View(), buf[i..], finish) == Drive(PRINTER_MACHINE, old(View()), buf, finish)
      {
        var cur := buf[i..];
        if THINK_OPEN <= cur {
          inThink := true;
          assert cur[|THINK_OPEN|..] == buf[i + |THINK_OPEN|..];
          i := i + |THINK_OPEN|;
          continue;
        }
        if THINK_CLOSE <= cur {
          LeaveThink();
          assert cur[|THINK_CLOSE|..] == buf[i + |THINK_CLOSE|..];
          i := i + |THINK_CLOSE|;
          continue;
        }
        if !finish && HeldBack(cur) {
          pending := cur;
          return;
        }
        PutChar(buf[i]);
        assert cur[1..] == buf[i + 1..];
        i := i + 1;
      }
    }
  }

  /**
   * Without colours a byte prints itself, and a closing tag prints a line break unless
   * the output already stands at the start of a line.
   */
  function Bit(lastNewline: bool, t: Token): bytes {
    match t case Open => [] case Close => (if lastNewline then [] else [LF]) case Other(c) => [c]
  }

  function AtLineStart(lastNewline: bool, t: Token): bool {
    match t case Open => lastNewline case Close => true case Other(c) => c == LF
  }

  function Printed(lastNewline: bool, ts: seq<Token>): bytes
    decreases |ts|
  {
    if ts == [] then [] else Bit(lastNewline, ts[0]) + Printed(AtLineStart(lastNewline, ts[0]), ts[1..])
  }

  function PrinterStep(s: Printer, t: Token): Printer {
    match t case Open => s.(inThink := true) case Close => CloseThink(s) case Other(c) => WriteChar(s, c)
  }

  lemma PrinterApplies(s: Printer, ts: seq<Token>)
    requires ts != []
    ensures Apply(PRINTER_MACHINE, s, ts) == Apply(PRINTER_MACHINE, PrinterStep(s, ts[0]), ts[1..])
  {
    hide CloseThink, WriteChar;
  }

  lemma PrinterStepShows(s: Printer, t: Token)
    requires !s.useColor
    ensures var r := PrinterStep(s, t);
      !r.useColor && r.out == s.out + Bit(s.lastNewline, t) && r.lastNewline == AtLineStart(s.lastNewline, t)
  {
  }

  lemma {:induction false} PrinterShows(s: Printer, ts: seq<Token>)
    requires !s.useColor
    ensures Apply(PRINTER_MACHINE, s, ts).out == s.out + Printed(s.lastNewline, ts)
    decreases |ts|
  {
    hide PRINTER_MACHINE, PrinterStep, Bit, AtLineStart;
    if ts == [] {
      assert s.out + [] == s.out;
    } else {
      var t := PrinterStep(s, ts[0]);
      PrinterApplies(s, ts);
      PrinterStepShows(s, ts[0]);
      PrinterShows(t, ts[1..]);
      Associative(s.out, Bit(s.lastNewline, ts[0]), Printed(t.lastNewline, ts[1..]));
    }
  }

  // ------------------------------------------------------------ colours

  const ESC: byte := 0x1B

  /** What a terminal that knows the two colour codes shows: each byte, and whether it is grey. */
  function Paint(out: bytes, grey: bool): seq<(byte, bool)>
    decreases |out|
  {
    if out == [] then []
    else if GREY <= out then Paint(out[|GREY|..], true)
    else if RESET <= out then Paint(out[|RESET|..], false)
    else [(out[0], grey)] + Paint(out[1..], grey)
  }

  /** The bytes shown for tokens, grey exactly while thinking. */
  function Cells(inThink: bool, lastNewline: bool, ts: seq<Token>): seq<(byte, bool)>
    decreases |ts|
  {
    if ts == [] then []
    else
      match ts[0]
      case Open => Cells(true, lastNewline, ts[1..])
      case Close => (if lastNewline then [] else [(LF, false)]) + Cells(false, true, ts[1..])
      case Other(c) => [(c, inThink)] + Cells(inThink, c == LF, ts[1..])
  }

  /** The bytes a token makes the printer write. */
  function Written(s: Printer, t: Token): bytes {
    match t
    case Open => []
    case Close => (if s.useColor && s.colorOpen then RESET else []) + (if s.lastNewline then [] else [LF])
    case Other(c) => (if s.inThink && s.useColor && !s.colorOpen then GREY else []) + [c]
  }

  function AllWritten(s: Printer, ts: seq<Token>): bytes
    decreases |ts|
  {
    if ts == [] then [] else Written(s, ts[0]) + AllWritten(PrinterStep(s, ts[0]), ts[1..])
  }

  lemma StepWrites(s: Printer, t: Token)
    ensures PrinterStep(s, t).out == s.out + Written(s, t) && PrinterStep(s, t).useColor == s.useColor
  {
  }

  lemma {:induction false} ApplyWrites(s: Printer, ts: seq<Token>)
    ensures Apply(PRINTER_MACHINE, s, ts).out == s.out + AllWritten(s, ts)
    decreases |ts|
  {
    hide PRINTER_MACHINE, PrinterStep, Written;
    if ts == [] {
      assert s.out + [] == s.out;
    } else {
      var t := PrinterStep(s, ts[0]);
      PrinterApplies(s, ts);
      StepWrites(s, ts[0]);
      ApplyWrites(t, ts[1..]);
      Associative(s.out, Written(s, ts[0]), AllWritten(t, ts[1..]));
    }
  }

  lemma PaintCodes(rest: bytes, grey: bool)
    ensures Paint(GREY + rest, grey) == Paint(rest, true) && Paint(RESET + rest, grey) == Paint(rest, false)
  {
    assert (GREY + rest)[|GREY|..] == rest && (RESET + rest)[|RESET|..] == rest;
    assert RESET[2] != GREY[2] && (RESET + rest)[2] == RESET[2];
  }

  lemma PaintByte(c: byte, rest: bytes, grey: bool)
    requires c != ESC
    ensures Paint([c] + rest, grey) == [(c, grey)] + Paint(rest, grey)
  {
    assert ([c] + rest)[1..] == rest && ([c] + rest)[0] == c;
  }

  /** The colours in a printer that writes no escape byte of the text's own. */
  lemma {:induction false} WrittenPaints(s: Printer, ts: seq<Token>)
    requires s.useColor && (s.colorOpen ==> s.inThink) && Token.Other(ESC) !in ts
    ensures Paint(AllWritten(s, ts), s.colorOpen) == Cells(s.inThink, s.lastNewline, ts)
    decreases |ts|
  {
    hide Paint, GREY, RESET;
    if ts == [] {
      PaintNothing(s.colorOpen);
    } else {
      var t := PrinterStep(s, ts[0]);
      var rest := AllWritten(t, ts[1..]);
      assert ts[0] in ts && forall x :: x in ts[1..] ==> x in ts;
      WrittenPaints(t, ts[1..]);
      match ts[0] {
        case Open => assert [] + rest == rest;
        case Close =>
          var line := if s.lastNewline then [] else [LF];
          if s.colorOpen {
            PaintCodes(line + rest, true);
            Associative(RESET, line, rest);
          } else {
            assert [] + line == line;
          }
          if s.lastNewline { assert [] + rest == rest; } else { PaintByte(LF, rest, false); }
        case Other(c) =>
          PaintByte(c, rest, s.inThink);
          if s.inThink && !s.colorOpen {
            PaintCodes([c] + rest, false);
            Associative(GREY, [c], rest);
          } else {
            assert [] + [c] == [c];
          }
      }
    }
  }

  lemma PaintNothing(grey: bool)
    ensures Paint([], grey) == []
  {
  }

  lemma {:induction false} NoEscape(text: bytes)
    requires ESC !in text
    ensures Token.Other(ESC) !in Tokens(text)
    decreases |text|
  {
    hide THINK_OPEN, THINK_CLOSE;
    TagLengths();
    if text != [] {
      var n := if THINK_OPEN <= text then |THINK_OPEN| else if THINK_CLOSE <= text then |THINK_CLOSE| else 1;
      assert forall i :: 0 <= i < |text| - n ==> text[n..][i] == text[n + i];
      NoEscape(text[n..]);
    }
  }

  /**
   * However the answer is cut, the printer ends as after one call on the whole text.
   * Without colours it prints the text without its tags and a break after each thinking
   * part; with colours, and no escape byte in the text, a terminal shows the same bytes,
   * grey exactly where they are thinking.
   */
  lemma PrinterOutput(s: Printer, chunks: seq<bytes>, last: bytes) returns (written: bytes)
    ensures var (s1, held) := DriveChunks(PRINTER_MACHINE, s, [], chunks);
      var text := Concat(chunks) + last;
      var r := Drive(PRINTER_MACHINE, s1, held + last, true).0;
      && r == Drive(PRINTER_MACHINE, s, text, true).0
      && r.out == s.out + written
      && (!s.useColor ==> written == Printed(s.lastNewline, Tokens(text)))
      && (s.useColor && (s.colorOpen ==> s.inThink) && ESC !in text ==>
            Paint(written, s.colorOpen) == Cells(s.inThink, s.lastNewline, Tokens(text)))
  {
    hide PRINTER_MACHINE, Paint, Cells;
    var text := Concat(chunks) + last;
    SplitInvariance(PRINTER_MACHINE, s, [], chunks, last);
    assert [] + text == text;
    NeverOwns();
    DriveIsApply(PRINTER_MACHINE, s, text);
    ApplyWrites(s, Tokens(text));
    written := AllWritten(s, Tokens(text));
    if !s.useColor {
      PrinterShows(s, Tokens(text));
      SamePrefix(s.out, written, Printed(s.lastNewline, Tokens(text)));
    } else if (s.colorOpen ==> s.inThink) && ESC !in text {
      NoEscape(text);
      WrittenPaints(s, Tokens(text));
    }
  }

  /** The printed bytes of the tokens are those a plain printing shows, colours aside. */
  lemma {:induction false} CellsArePrinted(inThink: bool, lastNewline: bool, ts: seq<Token>)
    ensures |Cells(inThink, lastNewline, ts)| == |Printed(lastNewline, ts)|
    ensures forall i :: 0 <= i < |Printed(lastNewline, ts)| ==> Cells(inThink, lastNewline, ts)[i].0 == Printed(lastNewline, ts)[i]
    decreases |ts|
  {
    if ts != [] {
      CellsArePrinted(if ts[0].Open? then true else if ts[0].Close? then false else inThink,
                      AtLineStart(lastNewline, ts[0]), ts[1..]);
    }
  }

  lemma SamePrefix(a: bytes, b: bytes, c: bytes)
    requires a + b == a + c
    ensures b == c
  {
    assert b == (a + b)[|a|..] && c == (a + c)[|a|..];
  }

  lemma NeverOwns()
    ensures forall s: Printer :: !PRINTER_MACHINE.owned(s)
  {
  }
}
