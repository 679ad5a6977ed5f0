// The metadata of a written case as a reader of fields finds it (ds4_eval.c:2587-2666,
// 3149-3172): the case number in the header line, and each named value behind its name.

module TraceFields {
  import opened Bytes
  import opened TraceWriter
  import opened TraceScanner
  import opened TraceRoundTrip
  import opened Regrade

  const TIMESTAMP: bytes := Ascii("timestamp_unix: ")
  const DOMAIN: bytes := Ascii("domain: ")
  const TITLE: bytes := Ascii("title: ")
  const EXPECTED: bytes := Ascii("expected: ")
  const PROMPT_TOKENS: bytes := Ascii("prompt_tokens: ")
  const GENERATED_TOKENS: bytes := Ascii("generated_tokens: ")
  const ELAPSED: bytes := Ascii("elapsed_sec: ")
  const TEMPERATURE: bytes := Ascii("temperature: ")
  const TOP_P: bytes := Ascii("top_p: ")
  const MIN_P: bytes := Ascii("min_p: ")
  const THINK_MODE: bytes := Ascii("think_mode_effective: ")
  const THINK_CLOSE: bytes := Ascii("think_close: ")

  /** The names of the fields that every case has, in the order in which they are written. */
  const KEYS: seq<bytes> := [
    TIMESTAMP, SOURCE, ID, DOMAIN, TITLE, STATUS,
    PICKED, EXPECTED, PROMPT_TOKENS, GENERATED_TOKENS, ELAPSED,
    TEMPERATURE, TOP_P, MIN_P, THINK_MODE, THINK_CLOSE]

  /** What a record has to say under these names; an empty pick is a question mark. */
  function Values(r: Record): (vs: seq<bytes>)
    ensures |vs| == 16
  {
    [r.timestamp, r.source, r.id, r.domain, r.title, r.status,
     if r.picked == [] then [0x3F] else r.picked, r.expected, Decimal(r.promptTokens), Decimal(r.generatedTokens), r.elapsed,
     r.temperature, r.topP, r.minP, r.thinkMode, if r.close.Some? then r.close.value.kind else Ascii("none")]
  }

  lemma NamedIs(name: string, key: string, value: bytes)
    requires forall i :: 0 <= i < |key| ==> key[i] < 128 as char
    requires key == name + ": "
    ensures forall i :: 0 <= i < |name| ==> name[i] < 128 as char
    ensures Named(name, value) == Ascii(key) + value
  {
    assert forall i :: 0 <= i < |name| ==> name[i] == key[i];
    assert Ascii(key) == Ascii(name) + COLON_SPACE;
  }

  lemma FactsAreNamed(r: Record)
    ensures Named("timestamp_unix", r.timestamp) == TIMESTAMP + r.timestamp
    ensures Named("domain", r.domain) == DOMAIN + r.domain && Named("title", r.title) == TITLE + r.title
  {
    hide Named;
    NamedIs("timestamp_unix", "timestamp_unix: ", r.timestamp);
    NamedIs("domain", "domain: ", r.domain);
    NamedIs("title", "title: ", r.title);
  }

  lemma HeadIsNamed(r: Record)
    ensures |KEYS| == 16 && |HeadLines(r)| == 7 && forall i :: 0 <= i < 7 ==> HeadLines(r)[i] == KEYS[i] + Values(r)[i]
  {
    hide Named, TIMESTAMP, SOURCE, ID, DOMAIN, TITLE, STATUS, PICKED, EXPECTED, PROMPT_TOKENS, GENERATED_TOKENS, ELAPSED, TEMPERATURE, TOP_P, MIN_P, THINK_MODE, THINK_CLOSE;
    FactsAreNamed(r);
  }

  lemma CountsAreNamed(r: Record)
    ensures Named("expected", r.expected) == EXPECTED + r.expected
    ensures Named("prompt_tokens", Decimal(r.promptTokens)) == PROMPT_TOKENS + Decimal(r.promptTokens)
    ensures Named("generated_tokens", Decimal(r.generatedTokens)) == GENERATED_TOKENS + Decimal(r.generatedTokens)
    ensures Named("elapsed_sec", r.elapsed) == ELAPSED + r.elapsed
  {
    hide Named, Decimal;
    NamedIs("expected", "expected: ", r.expected);
    NamedIs("prompt_tokens", "prompt_tokens: ", Decimal(r.promptTokens));
    NamedIs("generated_tokens", "generated_tokens: ", Decimal(r.generatedTokens));
    NamedIs("elapsed_sec", "elapsed_sec: ", r.elapsed);
  }

  lemma SettingsAreNamed(r: Record, close: bytes)
    ensures Named("temperature", r.temperature) == TEMPERATURE + r.temperature
    ensures Named("top_p", r.topP) == TOP_P + r.topP && Named("min_p", r.minP) == MIN_P + r.minP
    ensures Named("think_mode_effective", r.thinkMode) == THINK_MODE + r.thinkMode
    ensures Named("think_close", close) == THINK_CLOSE + close
  {
    hide Named;
    NamedIs("temperature", "temperature: ", r.temperature);
    NamedIs("top_p", "top_p: ", r.topP);
    NamedIs("min_p", "min_p: ", r.minP);
    NamedIs("think_mode_effective", "think_mode_effective: ", r.thinkMode);
    NamedIs("think_close", "think_close: ", close);
  }

  lemma DetailsAreNamed(r: Record)
    ensures |KEYS| == 16 && |DetailLines(r)| > 9 && forall i :: 0 <= i < 9 ==> DetailLines(r)[i] == KEYS[7 + i] + Values(r)[7 + i]
  {
    hide Named, ChoiceLines, Decimal, CloseLines, TIMESTAMP, SOURCE, ID, DOMAIN, TITLE, STATUS, PICKED, EXPECTED, PROMPT_TOKENS, GENERATED_TOKENS, ELAPSED, TEMPERATURE, TOP_P, MIN_P, THINK_MODE, THINK_CLOSE;
    CountsAreNamed(r);
    SettingsAreNamed(r, Values(r)[15]);
    CloseIsNamed(r.close);
    ChoicesAreThere(r.choices);
  }

  lemma CloseIsNamed(close: Option<Close>)
    ensures var ls := CloseLines(close);
      |ls| > 0 && ls[0] == Named("think_close", if close.Some? then close.value.kind else Ascii("none"))
  {
    hide Named;
  }

  lemma ChoicesAreThere(choices: seq<bytes>)
    ensures |ChoiceLines(choices)| > 0
  {
    hide Named;
  }

  /** Lines without line feeds are seen as they were written. */
  lemma {:induction false} FrontIsKept(ls: seq<bytes>, n: nat)
    requires n <= |ls| && forall i :: 0 <= i < n ==> LF !in ls[i]
    ensures n <= |BrokenLines(ls)| && BrokenLines(ls)[..n] == ls[..n]
  {
    hide Broken;
    if n > 0 {
      assert forall i :: 0 <= i < n - 1 ==> ls[1..][i] == ls[i + 1];
      FrontIsKept(ls[1..], n - 1);
      BrokenAt(ls[0], []);
      assert BrokenLines(ls) == [ls[0]] + BrokenLines(ls[1..]);
      assert ls[..n] == [ls[0]] + ls[1..][..n - 1];
    }
  }

  /** The values of the details hold no line feed. */
  predicate OneLined(r: Record) {
    forall i :: 7 <= i < 16 ==> LF !in Values(r)[i]
  }

  lemma KeysHaveNoLF(i: nat)
    requires i < |KEYS|
    ensures LF !in KEYS[i]
  {
    hide TIMESTAMP, SOURCE, ID, DOMAIN, TITLE, STATUS, PICKED, EXPECTED, PROMPT_TOKENS, GENERATED_TOKENS, ELAPSED, TEMPERATURE, TOP_P, MIN_P, THINK_MODE, THINK_CLOSE;
    HeadNames();
    DetailNames();
  }

  lemma HeadNames()
    ensures LF !in TIMESTAMP && LF !in SOURCE && LF !in ID && LF !in DOMAIN && LF !in TITLE && LF !in STATUS && LF !in PICKED
  {
    NoLF("timestamp_unix: ");
    NoLF("source: ");
    NoLF("id: ");
    NoLF("domain: ");
    NoLF("title: ");
    NoLF("status: ");
    NoLF("picked: ");
  }

  lemma DetailNames()
    ensures LF !in EXPECTED && LF !in PROMPT_TOKENS && LF !in GENERATED_TOKENS && LF !in ELAPSED && LF !in TEMPERATURE
    ensures LF !in TOP_P && LF !in MIN_P && LF !in THINK_MODE && LF !in THINK_CLOSE
  {
    NoLF("expected: ");
    NoLF("prompt_tokens: ");
    NoLF("generated_tokens: ");
    NoLF("elapsed_sec: ");
    NoLF("temperature: ");
    NoLF("top_p: ");
    NoLF("min_p: ");
    NoLF("think_mode_effective: ");
    NoLF("think_close: ");
  }

  lemma NoLF(name: string)
    requires forall i :: 0 <= i < |name| ==> 32 as char <= name[i] < 128 as char
    ensures LF !in Ascii(name)
  {
  }

  lemma SeenIsNamed(r: Record)
    requires Clean(r) && OneLined(r)
    ensures |KEYS| == 16 && |SeenLines(r)| >= 16
    ensures forall i :: 0 <= i < 16 ==> SeenLines(r)[i] == KEYS[i] + Values(r)[i] && LF !in SeenLines(r)[i]
  {
    hide Clean, Values, KEYS, HeadLines, DetailLines, HeaderLine;
    HeadIsNamed(r);
    DetailsAreNamed(r);
    LinesHaveNoLF(r);
    var ds := DetailLines(r);
    forall i | 0 <= i < 9 ensures LF !in ds[i] {
      KeysHaveNoLF(7 + i);
      assert LF !in Values(r)[7 + i];
    }
    FrontIsKept(ds, 9);
    forall i | 0 <= i < 16 ensures SeenLines(r)[i] == KEYS[i] + Values(r)[i] && LF !in SeenLines(r)[i] {
      if i < 7 {
        assert SeenLines(r)[i] == HeadLines(r)[i] && HeadLines(r)[i] in HeadLines(r);
      } else {
        assert SeenLines(r)[i] == BrokenLines(ds)[i - 7] == BrokenLines(ds)[..9][i - 7] == ds[..9][i - 7];
      }
    }
  }

  /** No name is the beginning of a line with another name. */
  lemma KeysDiffer(i: nat, j: nat, value: bytes)
    requires i < |KEYS| && j < |KEYS| && i != j
    ensures !(KEYS[j] <= KEYS[i] + value)
  {
    hide KEYS;
    KeyHeads();
    var p := if i + j == 29 then 6 else if HEADS[i][0] != HEADS[j][0] then 0 else if HEADS[i][1] != HEADS[j][1] then 1 else 2;
    assert p < 3 ==> KEYS[i][p] == HEADS[i][p] && KEYS[j][p] == HEADS[j][p];
    assert (KEYS[i] + value)[p] == KEYS[i][p] != KEYS[j][p];
  }

  lemma HeadKeys()
    ensures |TIMESTAMP| > 3 && TIMESTAMP[..3] == [0x74, 0x69, 0x6D]
    ensures |SOURCE| > 3 && SOURCE[..3] == [0x73, 0x6F, 0x75]
    ensures |ID| > 3 && ID[..3] == [0x69, 0x64, 0x3A]
    ensures |DOMAIN| > 3 && DOMAIN[..3] == [0x64, 0x6F, 0x6D]
    ensures |TITLE| > 3 && TITLE[..3] == [0x74, 0x69, 0x74]
    ensures |STATUS| > 3 && STATUS[..3] == [0x73, 0x74, 0x61]
    ensures |PICKED| > 3 && PICKED[..3] == [0x70, 0x69, 0x63]
    ensures |EXPECTED| > 3 && EXPECTED[..3] == [0x65, 0x78, 0x70]
  {
  }

  lemma DetailKeys()
    ensures |PROMPT_TOKENS| > 3 && PROMPT_TOKENS[..3] == [0x70, 0x72, 0x6F]
    ensures |GENERATED_TOKENS| > 3 && GENERATED_TOKENS[..3] == [0x67, 0x65, 0x6E]
    ensures |ELAPSED| > 3 && ELAPSED[..3] == [0x65, 0x6C, 0x61]
    ensures |TEMPERATURE| > 3 && TEMPERATURE[..3] == [0x74, 0x65, 0x6D]
    ensures |TOP_P| > 3 && TOP_P[..3] == [0x74, 0x6F, 0x70]
    ensures |MIN_P| > 3 && MIN_P[..3] == [0x6D, 0x69, 0x6E]
    ensures |THINK_MODE| > 6 && THINK_MODE[..3] == [0x74, 0x68, 0x69] && THINK_MODE[6] == 0x6D
    ensures |THINK_CLOSE| > 6 && THINK_CLOSE[..3] == [0x74, 0x68, 0x69] && THINK_CLOSE[6] == 0x63
  {
  }

  /** The first three bytes of the names; two of them differ at the seventh. */
  const HEADS: seq<bytes> := [
    [0x74, 0x69, 0x6D], [0x73, 0x6F, 0x75], [0x69, 0x64, 0x3A], [0x64, 0x6F, 0x6D], [0x74, 0x69, 0x74], [0x73, 0x74, 0x61],
    [0x70, 0x69, 0x63], [0x65, 0x78, 0x70], [0x70, 0x72, 0x6F], [0x67, 0x65, 0x6E], [0x65, 0x6C, 0x61], [0x74, 0x65, 0x6D],
    [0x74, 0x6F, 0x70], [0x6D, 0x69, 0x6E], [0x74, 0x68, 0x69], [0x74, 0x68, 0x69]]

  lemma KeyHeads()
    ensures |KEYS| == 16 == |HEADS| && |KEYS[14]| > 6 && |KEYS[15]| > 6 && KEYS[14][6] == 0x6D && KEYS[15][6] == 0x63
    ensures forall i :: 0 <= i < 16 ==> |KEYS[i]| > 3 && KEYS[i][..3] == HEADS[i]
  {
    hide TIMESTAMP, SOURCE, ID, DOMAIN, TITLE, STATUS, PICKED, EXPECTED, PROMPT_TOKENS, GENERATED_TOKENS, ELAPSED, TEMPERATURE, TOP_P, MIN_P, THINK_MODE, THINK_CLOSE;
    HeadKeys();
    DetailKeys();
  }

  /**
   * Every field of a written case is found under its name with the value it was given, cut
   * to the reader's buffer: none is left out, takes another's value, or hides another one.
   */
  lemma MetadataIsRead(r: Record, i: nat, size: nat)
    requires Clean(r) && OneLined(r) && i < 16 && size > 0
    ensures |KEYS| == 16 && Field(CaseText(r), KEYS[i], size) == Some(Span(Values(r)[i], size))
  {
    hide Clean, Values, KEYS, SeenLines, HeaderLine, Field, Span, CaseText, OneLined;
    SeenIsNamed(r);
    LinesHaveNoLF(r);
    KeyHeads();
    var seen, h := SeenLines(r), HeaderLine(r);
    var before, after := [h] + seen[..i], seen[i + 1..];
    assert [h] + seen == before + ([KEYS[i] + Values(r)[i]] + after);
    forall l | l in before ensures LF !in l && !(KEYS[i] <= l) {
      var j :| 0 <= j < |before| && before[j] == l;
      if j == 0 {
        HeaderIsNoField(r, i);
      } else {
        KeysDiffer(j - 1, i, Values(r)[j - 1]);
      }
    }
    FieldFound(r, before, KEYS[i], Values(r)[i], after, size);
  }

  lemma HeaderIsNoField(r: Record, i: nat)
    requires i < |KEYS|
    ensures !(KEYS[i] <= HeaderLine(r))
  {
    hide KEYS, HeaderLine;
    KeyHeads();
    FieldLineStarts(r);
    assert KEYS[i][0] == HEADS[i][0];
  }

  /** The header line tells which case of how many it is, counted from 1, and its source and id. */
  lemma HeaderIsRead(r: Record)
    requires r.index < ULL_MAX && r.ncases <= ULL_MAX
    ensures var h := HeaderLine(r); var k := |CASE|;
      && k < |h| && h[..k] == CASE
      && StrToULL(h[k..]).Some? && StrToULL(h[k..]).value.value == r.index + 1
      && var m := k + StrToULL(h[k..]).value.next;
         && m < |h| && h[m] == SLASH
         && StrToULL(h[m + 1..]).Some? && StrToULL(h[m + 1..]).value.value == r.ncases
         && h[m + 1..][StrToULL(h[m + 1..]).value.next..] == [SPACE] + r.source + [SLASH] + r.id + CASE_END
  {
    hide Decimal, StrToULL, CASE, CASE_END;
    var h := HeaderLine(r);
    var tail := [SPACE] + r.source + [SLASH] + r.id + CASE_END;
    var a, b := Decimal(r.index + 1), Decimal(r.ncases);
    PrintedNumber(r.index + 1, [SLASH] + b + tail);
    PrintedNumber(r.ncases, tail);
    assert h[|CASE|..] == a + ([SLASH] + b + tail);
    assert h[|CASE| + |a| + 1..] == b + tail;
    assert (b + tail)[|b|..] == tail;
  }
}
