// The controller that keeps room for an answer while the model is thinking
// (ds4_eval.c:3659-3661, 3747-3765, 3836-3957): a soft and a hard limit, the forced
// closing tag and the forced answer prefix. Sampling, ranking and evaluation are
// what the model does at each step; the controller is given their results.

module ThinkBudget {
  import opened Bytes
  import opened TagSplitter

  type Token = nat

  /** The tokenizer and its control tokens. */
  datatype Engine = Engine(text: Token -> bytes, eos: Token, hidden: Token -> bool, close: seq<Token>, answer: seq<Token>)

  datatype Config = Config(limit: nat, hard: nat, soft: nat)

  /** What the model does when `n` tokens have been generated. */
  datatype Model = Model(sample: nat -> Token, closeRank: nat -> nat, visible: nat -> Option<Token>, fails: nat -> bool)

  datatype Kind = NotClosed | Natural | Soft | Hard
  datatype CloseInfo = CloseInfo(kind: Kind, index: nat, remaining: int, rank: nat)

  datatype Control = Control(
    out: seq<Token>, raw: bytes, inThink: bool, closePos: int, answerPos: int, answerPending: bool, info: CloseInfo)

  datatype Status = Running | Ended | Broken

  predicate Closed(raw: bytes) { FindSub(CText(raw), THINK_CLOSE).Some? }

  /** The forced token at this step, the control behind it, and what closed thinking with which rank. */
  function Force(e: Engine, cfg: Config, m: Model, c: Control): (Option<Token>, Control, Kind, nat)
    requires e.answer != []
    requires c.closePos < |e.close| && c.answerPos < |e.answer|
  {
    var remaining: int := cfg.limit - |c.out|;
    var (token, d, kind, rank) :=
      if !(c.inThink && e.close != [] && c.answerPos < 0) then (None, c, NotClosed, 0)
      else if c.closePos >= 0 then
        var next := c.closePos + 1;
        var d := if next < |e.close| then c.(closePos := next)
                 else if c.answerPending then c.(closePos := -1, answerPos := 0, answerPending := false)
                 else c.(closePos := -1);
        (Some(e.close[c.closePos]), d, NotClosed, 0)
      else if remaining <= cfg.hard then
        var d := if |e.close| > 1 then c.(closePos := 1, answerPending := true) else c.(closePos := -1, answerPos := 0);
        (Some(e.close[0]), d, Hard, 0)
      else if remaining <= cfg.soft && |e.close| == 1 && m.closeRank(|c.out|) > 0 then
        (Some(e.close[0]), c, Soft, m.closeRank(|c.out|))
      else (None, c, NotClosed, 0);
    if token.None? && d.answerPos >= 0 then
      (Some(e.answer[d.answerPos]), d.(answerPos := if d.answerPos + 1 >= |e.answer| then -1 else d.answerPos + 1), kind, rank)
    else (token, d, kind, rank)
  }

  /** A control token is never the first one if a visible token can replace it. */
  function Corrected(e: Engine, m: Model, n: nat, token: Token): Token {
    if n == 0 && e.hidden(token) && m.visible(n).Some? then m.visible(n).value else token
  }

  predicate Ready(e: Engine, c: Control) {
    e.answer != [] && -1 <= c.closePos < |e.close| && -1 <= c.answerPos < |e.answer|
  }

  /** One pass of the decode loop. */
  function Step(e: Engine, cfg: Config, m: Model, c: Control): (r: (Control, Status))
    requires Ready(e, c)
    ensures Ready(e, r.0)
    ensures r.1 == Running ==> |r.0.out| == |c.out| + 1
    ensures r.1 != Running ==> r.0.out == c.out
  {
    var n := |c.out|;
    var remaining := cfg.limit - n;
    var (forced, d, kind, rank) := Force(e, cfg, m, c);
    var token := Corrected(e, m, n, forced.GetOr(m.sample(n)));
    if token == e.eos then (d, Ended)
    else
      var info := if kind != NotClosed && d.info.kind == NotClosed then CloseInfo(kind, n + 1, remaining, rank) else d.info;
      if m.fails(n) then (d.(info := info), Broken)
      else
        var raw := d.raw + e.text(token);
        var closes := d.inThink && Closed(raw);
        (d.(out := d.out + [token], raw := raw, inThink := d.inThink && !closes,
            info := if closes && info.kind == NotClosed then CloseInfo(Natural, n + 1, remaining, 0) else info), Running)
  }

  /** The loop: at most `limit` tokens. */
  function Run(e: Engine, cfg: Config, m: Model, c: Control): (r: (Control, Status))
    requires Ready(e, c)
    ensures |c.out| <= cfg.limit ==> |r.0.out| <= cfg.limit
    decreases cfg.limit - |c.out|
  {
    if |c.out| >= cfg.limit then (c, Running)
    else
      var (d, status) := Step(e, cfg, m, c);
      if status != Running then (d, status) else Run(e, cfg, m, d)
  }

  function Start(thinking: bool): Control {
    Control([], [], thinking, -1, -1, false, CloseInfo(NotClosed, 0, 0, 0))
  }

  /** The forcing part of the loop body. */
  method Choose(e: Engine, cfg: Config, m: Model, c0: Control) returns (token: Option<Token>, c: Control, kind: Kind, rank: nat)
    requires Ready(e, c0)
    ensures (token, c, kind, rank) == Force(e, cfg, m, c0)
  {
    c, rank, kind, token := c0, 0, NotClosed, None;
    var remaining := cfg.limit - |c.out|;
    if c.inThink && |e.close| > 0 && c.answerPos < 0 {
      if c.closePos >= 0 {
        token := Some(e.close[c.closePos]);
        c := c.(closePos := c.closePos + 1);
        if c.closePos >= |e.close| {
          c := c.(closePos := -1);
          if c.answerPending { c := c.(answerPos := 0, answerPending := false); }
        }
      } else if remaining <= cfg.hard {
        kind := Hard;
        token := Some(e.close[0]);
        c := c.(closePos := if |e.close| > 1 then 1 else -1);
        if c.closePos < 0 { c := c.(answerPos := 0); } else { c := c.(answerPending := true); }
      } else if remaining <= cfg.soft && |e.close| == 1 {
        rank := m.closeRank(|c.out|);
        if rank > 0 {
          kind := Soft;
          token := Some(e.close[0]);
        }
      }
    }
    if token.None? && c.answerPos >= 0 {
      token := Some(e.answer[c.answerPos]);
      c := c.(answerPos := c.answerPos + 1);
      if c.answerPos >= |e.answer| { c := c.(answerPos := -1); }
    }
  }

  /** The decode loop of `run_one_case`. */
  method Decode(e: Engine, cfg: Config, m: Model, thinking: bool) returns (c: Control, status: Status)
    requires e.answer != []
    ensures (c, status) == Run(e, cfg, m, Start(thinking))
  {
    hide Closed, Force, Run;
    c, status := Start(thinking), Running;
    while |c.out| < cfg.limit
      invariant Ready(e, c) && status == Running && |c.out| <= cfg.limit
      invariant Run(e, cfg, m, c) == Run(e, cfg, m, Start(thinking))
      decreases cfg.limit - |c.out|
    {
      ghost var before := c;
      RunStep(e, cfg, m, c);
      var n := |c.out|;
      var token, kind, rank;
      token, c, kind, rank := Choose(e, cfg, m, c);
      var next := if token.Some? then token.value else m.sample(n);
      if n == 0 && e.hidden(next) {
        var visible := m.visible(n);
        if visible.Some? { next := visible.value; }
      }
      if next == e.eos {
        status := Ended;
        return;
      }
      if kind != NotClosed && c.info.kind == NotClosed { c := c.(info := CloseInfo(kind, n + 1, cfg.limit - n, rank)); }
      if m.fails(n) {
        status := Broken;
        return;
      }
      c := c.(raw := c.raw + e.text(next), out := c.out + [next]);
      if c.inThink && Closed(c.raw) {
        c := c.(inThink := false);
        if c.info.kind == NotClosed { c := c.(info := CloseInfo(Natural, n + 1, cfg.limit - n, 0)); }
      }
      assert Step(e, cfg, m, before) == (c, Running);
    }
    RunEnds(e, cfg, m, c);
  }

  lemma RunStep(e: Engine, cfg: Config, m: Model, c: Control)
    requires Ready(e, c) && |c.out| < cfg.limit
    ensures var (d, status) := Step(e, cfg, m, c);
      Run(e, cfg, m, c) == if status != Running then (d, status) else Run(e, cfg, m, d)
  {
    hide Step;
  }

  lemma RunEnds(e: Engine, cfg: Config, m: Model, c: Control)
    requires Ready(e, c) && |c.out| >= cfg.limit
    ensures Run(e, cfg, m, c) == (c, Running)
  {
    hide Step;
  }

  // ---------------------------------------------------------------- the answer reserve

  /** The text of tokens. */
  function Spell(e: Engine, ts: seq<Token>): bytes {
    if ts == [] then [] else e.text(ts[0]) + Spell(e, ts[1..])
  }

  /** The tokenizer spells the closing tag and the answer prefix, token by token, and neither ends the answer. */
  ghost predicate Faithful(e: Engine) {
    && e.answer != [] && e.close != [] && Spell(e, e.close) == THINK_CLOSE
    && (forall i :: 0 <= i < |e.close| ==> e.text(e.close[i]) != [] && e.close[i] != e.eos)
    && (forall i :: 0 <= i < |e.answer| ==> e.answer[i] != e.eos)
  }

  /** The model neither ends the answer by itself nor fails. */
  ghost predicate Willing(e: Engine, m: Model) {
    && (forall n :: m.sample(n) != e.eos)
    && (forall n :: m.visible(n) != Some(e.eos))
    && (forall n :: !m.fails(n))
  }

  lemma {:induction false} SpellConcat(e: Engine, a: seq<Token>, b: seq<Token>)
    ensures Spell(e, a + b) == Spell(e, a) + Spell(e, b)
  {
    if a == [] {
      assert a + b == b && [] + Spell(e, b) == Spell(e, b);
    } else {
      SpellConcat(e, a[1..], b);
      assert (a + b)[1..] == a[1..] + b;
      Associative(e.text(a[0]), Spell(e, a[1..]), Spell(e, b));
    }
  }

  /** A prefix of the tag behind a text without it does not complete it, since `<` only starts the tag. */
  lemma NotClosedEarly(raw: bytes, part: bytes)
    requires NUL !in raw && !Closed(raw) && part <= THINK_CLOSE && part != THINK_CLOSE
    ensures !Closed(raw + part)
  {
    hide FindSub, CText;
    PartBytes(part);
    CTextIs(raw);
    CTextIs(raw + part);
    var t := raw + part;
    FindSubNone(raw, THINK_CLOSE);
    forall k | 0 <= k <= |t| ensures !(THINK_CLOSE <= t[k..]) {
      if k + 8 <= |raw| {
        assert !(THINK_CLOSE <= raw[k..]) && raw[k..][..8] == t[k..][..8];
      } else if k < |raw| && part != [] {
        assert t[k..][|raw| - k] == t[|raw|] == part[0] == LT;
        assert THINK_CLOSE[|raw| - k] != LT;
      }
    }
    FindSubNone(t, THINK_CLOSE);
  }

  lemma PartBytes(part: bytes)
    requires part <= THINK_CLOSE
    ensures NUL !in part && |THINK_CLOSE| == 8 && (part != [] ==> part[0] == LT)
    ensures forall k :: 0 < k < 8 ==> THINK_CLOSE[k] != LT
  {
    assert forall i :: 0 <= i < |part| ==> part[i] == THINK_CLOSE[i];
  }

  lemma ClosedNow(raw: bytes)
    requires NUL !in raw
    ensures Closed(raw + THINK_CLOSE)
  {
    hide FindSub, CText;
    PartBytes(THINK_CLOSE);
    CTextIs(raw + THINK_CLOSE);
    var t := raw + THINK_CLOSE;
    assert THINK_CLOSE <= t[|raw|..];
    FindSubNone(t, THINK_CLOSE);
  }

  /** Thinking goes on exactly while the raw text holds no closing tag. */
  ghost predicate Inv(e: Engine, cfg: Config, c: Control) {
    && Ready(e, c) && (c.inThink ==> !Closed(c.raw)) && c.raw == Spell(e, c.out)
    && (|c.out| + cfg.hard <= cfg.limit ==> c.closePos == -1 && c.answerPos == -1 && !c.answerPending)
  }

  lemma SpellOne(e: Engine, out: seq<Token>, t: Token)
    ensures Spell(e, out + [t]) == Spell(e, out) + e.text(t)
  {
    SpellConcat(e, out, [t]);
    assert [t][1..] == [] && e.text(t) + [] == e.text(t);
  }

  /** Before the hard limit nothing is left half forced. */
  lemma StepInv(e: Engine, cfg: Config, m: Model, c: Control)
    requires Inv(e, cfg, c) && |c.out| + cfg.hard < cfg.limit && Step(e, cfg, m, c).1 == Running
    ensures Inv(e, cfg, Step(e, cfg, m, c).0)
  {
    hide Closed, Spell;
    var t := Corrected(e, m, |c.out|, Force(e, cfg, m, c).0.GetOr(m.sample(|c.out|)));
    SpellOne(e, c.out, t);
  }

  /** The soft limit: thinking is open, few tokens are left, the tag is one token, and the model ranks it. */
  predicate SoftCloseDue(e: Engine, cfg: Config, m: Model, c: Control) {
    c.inThink && |e.close| == 1 && cfg.limit - |c.out| <= cfg.soft && m.closeRank(|c.out|) > 0
  }

  /**
   * Every token before the hard limit: the closing tag exactly when the soft limit is due,
   * and the sampled token otherwise; a hidden first token gives way to a visible one. The
   * end token ends the run, a failure breaks it, and any other token is recorded.
   */
  lemma TokenBeforeHardLimit(e: Engine, cfg: Config, m: Model, c: Control)
    requires Inv(e, cfg, c) && |c.out| + cfg.hard < cfg.limit
    ensures var n := |c.out|; var (d, status) := Step(e, cfg, m, c);
      var due := SoftCloseDue(e, cfg, m, c);
      var wanted := if due then e.close[0] else m.sample(n);
      var token := if n == 0 && e.hidden(wanted) && m.visible(0).Some? then m.visible(0).value else wanted;
      && (status == Ended <==> token == e.eos)
      && (status == Broken <==> token != e.eos && m.fails(n))
      && (status == Running ==> d.out == c.out + [token] && d.raw == c.raw + e.text(token))
      && (due && status != Ended && c.info.kind == NotClosed ==>
            d.info == CloseInfo(Soft, n + 1, cfg.limit - n, m.closeRank(n)))
  {
    hide Closed, Spell;
  }

  /** The soft close works: forced behind a text without NUL, the tag ends thinking. */
  lemma SoftCloseCloses(e: Engine, cfg: Config, m: Model, c: Control)
    requires Faithful(e) && Willing(e, m) && Inv(e, cfg, c) && 0 < |c.out| && |c.out| + cfg.hard < cfg.limit
    requires SoftCloseDue(e, cfg, m, c) && NUL !in c.raw
    ensures var (d, status) := Step(e, cfg, m, c);
      status == Running && d.out == c.out + e.close && d.raw == c.raw + THINK_CLOSE && !d.inThink
  {
    hide Closed, Spell, THINK_CLOSE;
    TokenBeforeHardLimit(e, cfg, m, c);
    CloseToken(e, c.raw, 0);
    SpellNothing(e);
    assert c.raw + [] == c.raw && e.close == [e.close[0]];
    assert e.close[..1] == e.close;
  }

  /** The control while the closing tag is being forced, `j` tokens of it done. */
  ghost predicate Closing(e: Engine, c: Control, j: nat) {
    && 0 < j < |e.close| && c.inThink && c.closePos == j && c.answerPos == -1 && c.answerPending
  }

  /** The control while the answer prefix is being forced, `j` tokens of it done. */
  ghost predicate Answering(e: Engine, c: Control, j: nat) {
    && j < |e.answer| && !c.inThink && c.answerPos == j && c.closePos == -1 && !c.answerPending
  }

  /** The control once nothing is forced any more. */
  ghost predicate Free(c: Control) {
    !c.inThink && c.closePos == -1 && c.answerPos == -1
  }

  lemma SpellPrefix(e: Engine, j: nat)
    requires Faithful(e) && j <= |e.close|
    ensures Spell(e, e.close[..j]) <= THINK_CLOSE
    ensures j < |e.close| ==> Spell(e, e.close[..j]) != THINK_CLOSE
  {
    hide THINK_CLOSE;
    var rest := e.close[j..];
    assert e.close == e.close[..j] + rest;
    SpellConcat(e, e.close[..j], rest);
    if j < |e.close| { assert rest[0] == e.close[j] && |Spell(e, rest)| >= |e.text(rest[0])| > 0; }
  }

  /** One more token of the closing tag keeps thinking open until the last one closes it. */
  lemma CloseToken(e: Engine, raw: bytes, j: nat)
    requires Faithful(e) && NUL !in raw && !Closed(raw) && j < |e.close|
    ensures var next := raw + Spell(e, e.close[..j]) + e.text(e.close[j]);
      && next == raw + Spell(e, e.close[..j + 1])
      && (Closed(next) <==> j + 1 == |e.close|)
  {
    hide THINK_CLOSE, Closed, Spell;
    assert e.close[..j + 1] == e.close[..j] + [e.close[j]];
    SpellOne(e, e.close[..j], e.close[j]);
    Associative(raw, Spell(e, e.close[..j]), e.text(e.close[j]));
    if j + 1 < |e.close| {
      SpellPrefix(e, j + 1);
      NotClosedEarly(raw, Spell(e, e.close[..j + 1]));
    } else {
      assert e.close[..j + 1] == e.close;
      ClosedNow(raw);
    }
  }

  /** One pass that emits `t`, as the loop sees it. */
  ghost predicate Emits(e: Engine, cfg: Config, m: Model, c: Control, t: Token, d: Control) {
    Ready(e, c) && Step(e, cfg, m, c) == (d, Running) && d.out == c.out + [t] && d.raw == c.raw + e.text(t)
  }

  lemma EnterClosing(e: Engine, cfg: Config, m: Model, c: Control)
    requires Faithful(e) && Willing(e, m) && Inv(e, cfg, c) && NUL !in c.raw
    requires c.inThink && 0 < |c.out| == cfg.limit - cfg.hard
    ensures var d := Step(e, cfg, m, c).0;
      Emits(e, cfg, m, c, e.close[0], d) && if |e.close| > 1 then Closing(e, d, 1) else Answering(e, d, 0)
  {
    hide Closed, Spell, THINK_CLOSE;
    CloseToken(e, c.raw, 0);
    assert Spell(e, e.close[..0]) == [] by { SpellNothing(e); }
    assert c.raw + [] == c.raw;
  }

  lemma SpellNothing(e: Engine)
    ensures Spell(e, e.close[..0]) == []
  {
  }

  lemma KeepClosing(e: Engine, cfg: Config, m: Model, c: Control, raw: bytes, j: nat)
    requires Faithful(e) && Willing(e, m) && Closing(e, c, j) && c.out != []
    requires NUL !in raw && !Closed(raw) && c.raw == raw + Spell(e, e.close[..j])
    ensures var d := Step(e, cfg, m, c).0;
      && Emits(e, cfg, m, c, e.close[j], d) && d.raw == raw + Spell(e, e.close[..j + 1])
      && if j + 1 < |e.close| then Closing(e, d, j + 1) else Answering(e, d, 0)
  {
    hide Closed, Spell, THINK_CLOSE;
    CloseToken(e, raw, j);
  }

  lemma KeepAnswering(e: Engine, cfg: Config, m: Model, c: Control, j: nat)
    requires Faithful(e) && Willing(e, m) && Answering(e, c, j) && c.out != []
    ensures var d := Step(e, cfg, m, c).0;
      Emits(e, cfg, m, c, e.answer[j], d) && if j + 1 < |e.answer| then Answering(e, d, j + 1) else Free(d)
  {
    hide Closed;
  }

  lemma StayFree(e: Engine, cfg: Config, m: Model, c: Control)
    requires Faithful(e) && Willing(e, m) && Free(c) && c.out != []
    ensures var d := Step(e, cfg, m, c).0;
      Emits(e, cfg, m, c, m.sample(|c.out|), d) && Free(d)
  {
    hide Closed;
  }

  /** The tokens the model samples from step `from` up to step `to`. */
  function Samples(m: Model, from: nat, to: nat): seq<Token>
    decreases if from < to then to - from else 0
  {
    if from >= to then [] else [m.sample(from)] + Samples(m, from + 1, to)
  }

  lemma RunEmits(e: Engine, cfg: Config, m: Model, c: Control, t: Token, d: Control)
    requires Emits(e, cfg, m, c, t, d) && |c.out| < cfg.limit
    ensures Ready(e, d) && Run(e, cfg, m, c) == Run(e, cfg, m, d) && |d.out| == |c.out| + 1
  {
    hide Step;
  }

  lemma {:induction false} RunFree(e: Engine, cfg: Config, m: Model, c: Control)
    requires Faithful(e) && Willing(e, m) && Free(c) && 0 < |c.out| <= cfg.limit
    ensures Ready(e, c) && Run(e, cfg, m, c).1 == Running
    ensures Run(e, cfg, m, c).0.out == c.out + Samples(m, |c.out|, cfg.limit)
    decreases cfg.limit - |c.out|
  {
    hide Step, Faithful, Willing;
    assert Ready(e, c) by { FaithfulReady(e, c); }
    if |c.out| < cfg.limit {
      StayFree(e, cfg, m, c);
      var d := Step(e, cfg, m, c).0;
      RunEmits(e, cfg, m, c, m.sample(|c.out|), d);
      RunFree(e, cfg, m, d);
      assert Samples(m, |c.out|, cfg.limit) == [m.sample(|c.out|)] + Samples(m, |c.out| + 1, cfg.limit);
      Append(c.out, m.sample(|c.out|), Samples(m, |c.out| + 1, cfg.limit));
    } else {
      assert c.out + [] == c.out;
    }
  }

  lemma FaithfulReady(e: Engine, c: Control)
    requires Faithful(e)
    ensures Free(c) ==> Ready(e, c)
    ensures forall j :: Answering(e, c, j) || Closing(e, c, j) ==> Ready(e, c)
  {
  }

  lemma Append(a: seq<Token>, t: Token, b: seq<Token>)
    ensures a + [t] + b == a + ([t] + b)
  {
  }

  lemma {:induction false} RunAnswering(e: Engine, cfg: Config, m: Model, c: Control, j: nat)
    requires Faithful(e) && Willing(e, m) && Answering(e, c, j) && 0 < |c.out| && |c.out| + (|e.answer| - j) <= cfg.limit
    ensures Ready(e, c) && Run(e, cfg, m, c).1 == Running
    ensures Run(e, cfg, m, c).0.out == c.out + (e.answer[j..] + Samples(m, |c.out| + (|e.answer| - j), cfg.limit))
    decreases |e.answer| - j
  {
    hide Run, Step, Faithful, Willing, Samples, Free;
    FaithfulReady(e, c);
    KeepAnswering(e, cfg, m, c, j);
    var d := Step(e, cfg, m, c).0;
    RunEmits(e, cfg, m, c, e.answer[j], d);
    var tail := Samples(m, |c.out| + (|e.answer| - j), cfg.limit);
    assert e.answer[j..] == [e.answer[j]] + e.answer[j + 1..];
    if j + 1 < |e.answer| {
      RunAnswering(e, cfg, m, d, j + 1);
    } else {
      RunFree(e, cfg, m, d);
      assert e.answer[j + 1..] == [] && [] + tail == tail;
    }
    Append(c.out, e.answer[j], e.answer[j + 1..] + tail);
    assert [e.answer[j]] + (e.answer[j + 1..] + tail) == e.answer[j..] + tail;
  }

  lemma {:induction false} RunClosing(e: Engine, cfg: Config, m: Model, c: Control, raw: bytes, j: nat)
    requires Faithful(e) && Willing(e, m) && Closing(e, c, j) && c.out != []
    requires NUL !in raw && !Closed(raw) && c.raw == raw + Spell(e, e.close[..j])
    requires |c.out| + (|e.close| - j) + |e.answer| <= cfg.limit
    ensures Ready(e, c) && Run(e, cfg, m, c).1 == Running
    ensures Run(e, cfg, m, c).0.out
         == c.out + (e.close[j..] + (e.answer + Samples(m, |c.out| + (|e.close| - j) + |e.answer|, cfg.limit)))
    decreases |e.close| - j
  {
    hide Run, Step, Faithful, Willing, Samples, Spell, Closed;
    FaithfulReady(e, c);
    KeepClosing(e, cfg, m, c, raw, j);
    var d := Step(e, cfg, m, c).0;
    FaithfulAnswer(e);
    RunEmits(e, cfg, m, c, e.close[j], d);
    var tail := e.answer + Samples(m, |c.out| + (|e.close| - j) + |e.answer|, cfg.limit);
    assert e.close[j..] == [e.close[j]] + e.close[j + 1..];
    if j + 1 < |e.close| {
      RunClosing(e, cfg, m, d, raw, j + 1);
    } else {
      RunAnswering(e, cfg, m, d, 0);
      assert e.answer[0..] == e.answer;
      assert e.close[j + 1..] == [] && [] + tail == tail;
    }
    Append(c.out, e.close[j], e.close[j + 1..] + tail);
    assert [e.close[j]] + (e.close[j + 1..] + tail) == e.close[j..] + tail;
  }

  lemma FaithfulAnswer(e: Engine)
    requires Faithful(e)
    ensures |e.answer| > 0 && |e.close| > 0
  {
  }

  /** The control after `n` passes. */
  function After(e: Engine, cfg: Config, m: Model, c: Control, n: nat): (d: Control)
    requires Ready(e, c)
    ensures Ready(e, d)
    decreases n
  {
    if n == 0 then c else After(e, cfg, m, Step(e, cfg, m, c).0, n - 1)
  }

  lemma EarlyStepRuns(e: Engine, cfg: Config, m: Model, c: Control)
    requires Faithful(e) && Willing(e, m) && Inv(e, cfg, c) && |c.out| + cfg.hard < cfg.limit
    ensures Step(e, cfg, m, c).1 == Running
  {
    hide Closed;
  }

  lemma {:induction false} ReachHardLimit(e: Engine, cfg: Config, m: Model, c: Control, n: nat)
    requires Faithful(e) && Willing(e, m) && Inv(e, cfg, c) && |c.out| + n + cfg.hard == cfg.limit
    ensures var d := After(e, cfg, m, c, n);
      Inv(e, cfg, d) && |d.out| == |c.out| + n && Run(e, cfg, m, d) == Run(e, cfg, m, c)
    decreases n
  {
    hide Step, Faithful, Willing;
    if n > 0 {
      EarlyStepRuns(e, cfg, m, c);
      StepInv(e, cfg, m, c);
      ReachHardLimit(e, cfg, m, Step(e, cfg, m, c).0, n - 1);
    }
  }

  // ------------------------------------------------ a NUL in the thinking text

  /** What stands behind a NUL is not part of the C string. */
  lemma {:induction false} NulEndsText(a: bytes, b: bytes)
    requires NUL in a
    ensures CText(a + b) == CText(a)
  {
    if a[0] != NUL {
      assert (a + b)[1..] == a[1..] + b;
      assert a == [a[0]] + a[1..];
      NulEndsText(a[1..], b);
    }
  }

  /** The tokens that are forced again and again while the closing tag is not seen. */
  function Script(e: Engine): seq<Token> { e.close + e.answer }

  /** `k` forced tokens from position `pos` of the script on, which starts over at its end. */
  function Forced(e: Engine, pos: nat, k: nat): (ts: seq<Token>)
    requires pos < |Script(e)|
    ensures |ts| == k
    decreases k
  {
    if k == 0 then []
    else [Script(e)[pos]] + Forced(e, if pos + 1 < |Script(e)| then pos + 1 else 0, k - 1)
  }

  lemma {:induction false} ForcedStarts(e: Engine, pos: nat, k: nat)
    requires pos < |Script(e)| && k >= |Script(e)| - pos
    ensures Forced(e, pos, k) == Script(e)[pos..] + Forced(e, 0, k - (|Script(e)| - pos))
    decreases |Script(e)| - pos
  {
    var rest := Forced(e, 0, k - (|Script(e)| - pos));
    if pos + 1 < |Script(e)| {
      ForcedStarts(e, pos + 1, k - 1);
      assert Script(e)[pos..] == [Script(e)[pos]] + Script(e)[pos + 1..];
      Append([], Script(e)[pos], Script(e)[pos + 1..] + rest);
    } else {
      assert Script(e)[pos..] == [Script(e)[pos]];
    }
  }

  /** Thinking that cannot be closed, at position `pos` of the script. */
  ghost predicate Blind(e: Engine, c: Control, pos: nat) {
    && c.inThink && NUL in c.raw && !Closed(c.raw) && pos < |Script(e)|
    && c.closePos == (if 0 < pos < |e.close| then pos else -1)
    && c.answerPos == (if pos >= |e.close| then pos - |e.close| else -1)
    && (c.answerPending <==> 0 < pos < |e.close|)
  }

  lemma BlindStep(e: Engine, cfg: Config, m: Model, c: Control, pos: nat)
    requires Faithful(e) && Willing(e, m) && Blind(e, c, pos) && c.out != [] && |c.out| + cfg.hard >= cfg.limit
    ensures var d := Step(e, cfg, m, c).0;
      Emits(e, cfg, m, c, Script(e)[pos], d) && Blind(e, d, if pos + 1 < |Script(e)| then pos + 1 else 0)
  {
    hide CText, FindSub, Spell;
    var raw := c.raw + e.text(Script(e)[pos]);
    NulEndsText(c.raw, e.text(Script(e)[pos]));
    assert Closed(raw) == Closed(c.raw);
    assert NUL in raw;
  }

  lemma {:induction false} RunBlind(e: Engine, cfg: Config, m: Model, c: Control, pos: nat)
    requires Faithful(e) && Willing(e, m) && Blind(e, c, pos) && c.out != [] && cfg.limit - cfg.hard <= |c.out| <= cfg.limit
    ensures Ready(e, c) && Run(e, cfg, m, c).1 == Running
    ensures Run(e, cfg, m, c).0.out == c.out + Forced(e, pos, cfg.limit - |c.out|)
    decreases cfg.limit - |c.out|
  {
    hide Step, Willing, Closed;
    if |c.out| < cfg.limit {
      BlindStep(e, cfg, m, c, pos);
      var d := Step(e, cfg, m, c).0;
      var next := if pos + 1 < |Script(e)| then pos + 1 else 0;
      RunEmits(e, cfg, m, c, Script(e)[pos], d);
      RunBlind(e, cfg, m, d, next);
      Append(c.out, Script(e)[pos], Forced(e, next, cfg.limit - |c.out| - 1));
    } else {
      assert c.out + [] == c.out;
    }
  }

  // ---------------------------------------------------------------- the theorem

  /** The tokens of the last `hard` steps of a run that is at the hard limit. */
  function Ending(e: Engine, cfg: Config, m: Model, c: Control): seq<Token>
    requires e.close != [] && cfg.limit > cfg.hard
  {
    var n := cfg.limit - cfg.hard;
    if !c.inThink then Samples(m, n, cfg.limit)
    else if NUL in c.raw then Forced(e, 0, cfg.hard)
    else e.close + (e.answer + Samples(m, n + |e.close| + |e.answer|, cfg.limit))
  }

  /**
   * The answer reserve. A run that neither ends by itself nor fails generates exactly
   * `limit` tokens. If thinking is closed when `hard` tokens are left, all of them are
   * sampled. If it is open, the next tokens are the closing tag and the answer prefix,
   * and the rest is sampled exactly if the text so far holds no NUL; if it does, the
   * closing tag is never seen, and tag and prefix are forced over and over.
   */
  lemma AnswerReserve(e: Engine, cfg: Config, m: Model, thinking: bool)
    requires Faithful(e) && Willing(e, m) && cfg.limit > cfg.hard >= |e.close| + |e.answer|
    ensures var c := After(e, cfg, m, Start(thinking), cfg.limit - cfg.hard);
      var (end, status) := Run(e, cfg, m, Start(thinking));
      var n := cfg.limit - cfg.hard;
      && status == Running && |end.out| == cfg.limit && |c.out| == n && end.out == c.out + Ending(e, cfg, m, c)
      && (c.inThink ==> end.out[n..n + |Script(e)|] == Script(e))
  {
    hide Step, Closed, Samples, Faithful, Willing, Spell, Run, Forced;
    FaithfulAnswer(e);
    StartInv(e, cfg, thinking);
    var n := cfg.limit - cfg.hard;
    ReachHardLimit(e, cfg, m, Start(thinking), n);
    var c := After(e, cfg, m, Start(thinking), n);
    var end := Run(e, cfg, m, c).0;
    SampleCount(m, n, cfg.limit);
    SampleCount(m, n + |e.close| + |e.answer|, cfg.limit);
    if c.inThink && NUL in c.raw {
      RunBlind(e, cfg, m, c, 0);
      ForcedStarts(e, 0, cfg.hard);
      assert Script(e)[0..] == Script(e);
      Middle(c.out, Forced(e, 0, cfg.hard), |Script(e)|);
    } else if c.inThink {
      RunToAnswer(e, cfg, m, c);
      var tail := Samples(m, n + |e.close| + |e.answer|, cfg.limit);
      assert end.out == c.out + (Script(e) + tail);
    } else {
      RunFree(e, cfg, m, c);
    }
  }

  lemma Middle(a: seq<Token>, b: seq<Token>, k: nat)
    requires k <= |b|
    ensures (a + b)[|a|..|a| + k] == b[..k]
  {
  }

  /** From the hard limit, with thinking open and a text without NUL, to the end. */
  lemma RunToAnswer(e: Engine, cfg: Config, m: Model, c: Control)
    requires Faithful(e) && Willing(e, m) && cfg.limit > cfg.hard >= |e.close| + |e.answer|
    requires Inv(e, cfg, c) && c.inThink && |c.out| == cfg.limit - cfg.hard && NUL !in c.raw
    ensures Run(e, cfg, m, c).1 == Running
    ensures Run(e, cfg, m, c).0.out
         == c.out + (e.close + (e.answer + Samples(m, |c.out| + |e.close| + |e.answer|, cfg.limit)))
  {
    hide Step, Closed, Samples, Faithful, Willing, Spell, Run;
    FaithfulAnswer(e);
    var n := |c.out|;
    EnterClosing(e, cfg, m, c);
    var d := Step(e, cfg, m, c).0;
    RunEmits(e, cfg, m, c, e.close[0], d);
    var tail := e.answer + Samples(m, n + |e.close| + |e.answer|, cfg.limit);
    if |e.close| > 1 {
      FirstSpelled(e, c.raw);
      RunClosing(e, cfg, m, d, c.raw, 1);
      assert c.out + [e.close[0]] + (e.close[1..] + tail) == c.out + (e.close + tail);
    } else {
      RunAnswering(e, cfg, m, d, 0);
      assert e.answer[0..] == e.answer && e.close == [e.close[0]];
      assert c.out + [e.close[0]] + tail == c.out + (e.close + tail);
    }
  }

  lemma {:induction false} BlindAfter(e: Engine, cfg: Config, m: Model, c: Control, pos: nat, k: nat)
    requires Faithful(e) && Willing(e, m) && Blind(e, c, pos) && c.out != [] && |c.out| + cfg.hard >= cfg.limit
    requires pos + k < |Script(e)|
    ensures Ready(e, c) && Blind(e, After(e, cfg, m, c, k), pos + k)
    decreases k
  {
    hide Step, Faithful, Willing, Closed;
    assert Ready(e, c) by { BlindReady(e, c, pos); }
    if k > 0 {
      BlindStep(e, cfg, m, c, pos);
      BlindAfter(e, cfg, m, Step(e, cfg, m, c).0, pos + 1, k - 1);
    }
  }

  lemma BlindReady(e: Engine, c: Control, pos: nat)
    requires Faithful(e) && Blind(e, c, pos)
    ensures Ready(e, c)
  {
  }

  lemma {:induction false} ClosingAfter(e: Engine, cfg: Config, m: Model, c: Control, raw: bytes, j: nat)
    requires Faithful(e) && Willing(e, m) && Closing(e, c, j) && c.out != []
    requires NUL !in raw && !Closed(raw) && c.raw == raw + Spell(e, e.close[..j])
    ensures Ready(e, c) && Answering(e, After(e, cfg, m, c, |e.close| - j), 0)
    decreases |e.close| - j
  {
    hide Step, Willing, Spell, Closed;
    KeepClosing(e, cfg, m, c, raw, j);
    if j + 1 < |e.close| { ClosingAfter(e, cfg, m, Step(e, cfg, m, c).0, raw, j + 1); }
  }

  /**
   * When the forced tag works: with thinking open at the hard limit, it is closed after
   * the tag's tokens exactly if the text up to the limit holds no NUL.
   */
  lemma ForcedTagCloses(e: Engine, cfg: Config, m: Model, thinking: bool)
    requires Faithful(e) && Willing(e, m) && cfg.limit > cfg.hard >= |e.close| + |e.answer|
    requires After(e, cfg, m, Start(thinking), cfg.limit - cfg.hard).inThink
    ensures var c := After(e, cfg, m, Start(thinking), cfg.limit - cfg.hard);
      !After(e, cfg, m, c, |e.close|).inThink <==> NUL !in c.raw
  {
    hide Step, Willing, Spell, Closed;
    StartInv(e, cfg, thinking);
    ReachHardLimit(e, cfg, m, Start(thinking), cfg.limit - cfg.hard);
    var c := After(e, cfg, m, Start(thinking), cfg.limit - cfg.hard);
    if NUL in c.raw {
      BlindAfter(e, cfg, m, c, 0, |e.close|);
    } else {
      EnterClosing(e, cfg, m, c);
      var d := Step(e, cfg, m, c).0;
      if |e.close| > 1 {
        FirstSpelled(e, c.raw);
        ClosingAfter(e, cfg, m, d, c.raw, 1);
      }
    }
  }

  /** Token 0 is a NUL byte, 1 the closing tag, 2 the answer prefix; the model samples token 0. */
  const NUL_ENGINE: Engine := Engine(
    (t: Token) => if t == 0 then [NUL] else if t == 1 then THINK_CLOSE else [LF], 3, (t: Token) => false, [1], [2])
  const NUL_MODEL: Model := Model((n: nat) => 0, (n: nat) => 0, (n: nat) => None, (n: nat) => false)

  lemma NulIsFaithful()
    ensures Faithful(NUL_ENGINE) && Willing(NUL_ENGINE, NUL_MODEL)
  {
    hide THINK_CLOSE;
    TagIsLong();
    SpellOne(NUL_ENGINE, [], 1);
    assert [] + [1] == NUL_ENGINE.close;
  }

  /** Two sampled tokens later the text is two NUL bytes and thinking is open. */
  lemma NulStaysOpen()
    ensures var c := After(NUL_ENGINE, Config(5, 3, 0), NUL_MODEL, Start(true), 2);
      c.out == [0, 0] && c.raw == [NUL, NUL] && c.inThink
  {
    hide Step, NUL_ENGINE, NUL_MODEL;
    var e, m, cfg := NUL_ENGINE, NUL_MODEL, Config(5, 3, 0);
    var c1 := Start(true).(out := [0], raw := [NUL]);
    NulStep(Start(true));
    NulStep(c1);
    assert [] + [0] == [0] && [] + [NUL] == [NUL] && [0] + [0] == [0, 0] && [NUL] + [NUL] == [NUL, NUL];
    TwoSteps(e, cfg, m, Start(true), c1, c1.(out := [0, 0], raw := [NUL, NUL]));
  }

  /** Before the hard limit the model's token is taken, and a text of NUL bytes closes nothing. */
  lemma NulStep(c: Control)
    requires c == Start(true).(out := c.out, raw := c.raw) && |c.out| < 2 && (c.raw == [] || c.raw[0] == NUL)
    ensures Ready(NUL_ENGINE, c)
    ensures Step(NUL_ENGINE, Config(5, 3, 0), NUL_MODEL, c) == (c.(out := c.out + [0], raw := c.raw + [NUL]), Running)
  {
    hide THINK_CLOSE, FindSub;
    TagIsLong();
    FindSubNone([], THINK_CLOSE);
    var raw := c.raw + [NUL];
    assert raw[0] == NUL && CText(raw) == [];
  }

  lemma TwoSteps(e: Engine, cfg: Config, m: Model, c: Control, c1: Control, c2: Control)
    requires Ready(e, c) && Step(e, cfg, m, c) == (c1, Running) && Step(e, cfg, m, c1) == (c2, Running)
    ensures After(e, cfg, m, c, 2) == c2
  {
    hide Step;
    assert After(e, cfg, m, c, 2) == After(e, cfg, m, c1, 1) == After(e, cfg, m, c2, 0);
  }

  /** A text with a NUL whose reserve is spent on a second closing tag instead of the sampled token. */
  lemma NulSpendsTheReserve()
    ensures Faithful(NUL_ENGINE) && Willing(NUL_ENGINE, NUL_MODEL)
    ensures Run(NUL_ENGINE, Config(5, 3, 0), NUL_MODEL, Start(true)).0.out == [0, 0, 1, 2, 1]
  {
    hide THINK_CLOSE, FindSub, CText, Run, Step, After, Forced, Faithful, Willing;
    NulIsFaithful();
    NulStaysOpen();
    AnswerReserve(NUL_ENGINE, Config(5, 3, 0), NUL_MODEL, true);
    ForcedOnce(NUL_ENGINE);
  }

  lemma TagIsLong()
    ensures THINK_CLOSE != []
  {
  }

  lemma ForcedOnce(e: Engine)
    requires Script(e) == [1, 2]
    ensures Forced(e, 0, 3) == [1, 2, 1]
  {
    assert Forced(e, 0, 1) == [1];
    assert Forced(e, 1, 2) == [2, 1];
  }

  lemma FirstSpelled(e: Engine, raw: bytes)
    requires |e.close| > 0
    ensures Spell(e, e.close[..1]) == e.text(e.close[0])
  {
    assert e.close[..1] == [e.close[0]];
    SpellOne(e, [], e.close[0]);
    assert [] + [e.close[0]] == [e.close[0]] && [] + e.text(e.close[0]) == e.text(e.close[0]);
  }

  lemma StartInv(e: Engine, cfg: Config, thinking: bool)
    requires Faithful(e)
    ensures Inv(e, cfg, Start(thinking))
  {
    assert !Closed([]) by { FindSubNone([], THINK_CLOSE); }
  }

  lemma {:induction false} SampleCount(m: Model, from: nat, to: nat)
    requires from <= to
    ensures |Samples(m, from, to)| == to - from
    decreases if from < to then to - from else 0
  {
    if from < to { SampleCount(m, from + 1, to); }
  }

  /** No run of any model exceeds the limit. */
  lemma NeverBeyondLimit(e: Engine, cfg: Config, m: Model, thinking: bool)
    requires e.answer != []
    ensures |Run(e, cfg, m, Start(thinking)).0.out| <= cfg.limit
  {
  }

  // ---------------------------------------------------------------- what is reported

  /**
   * The report on how thinking was closed is true: with the token's place and the budget
   * before it; natural at the token that completes the tag, soft between the limits for a
   * ranked one-token tag, hard at the hard limit; and no close goes unreported.
   */
  ghost predicate Told(e: Engine, cfg: Config, m: Model, thinking: bool, c: Control) {
    var i := c.info;
    && (i.kind == NotClosed ==> c.inThink == thinking)
    && (i.kind != NotClosed ==> thinking && 0 < i.index <= |c.out| && i.remaining == cfg.limit - (i.index - 1))
    && (i.kind == Natural ==>
          !c.inThink && !Closed(Spell(e, c.out[..i.index - 1])) && Closed(Spell(e, c.out[..i.index])))
    && (i.kind == Soft ==>
          cfg.hard < i.remaining <= cfg.soft && |e.close| == 1 && i.rank == m.closeRank(i.index - 1) > 0)
    && (i.kind == Hard ==> i.remaining <= cfg.hard)
  }

  /** What the report relies on: the text is the tokens', and open thinking holds no closing tag. */
  ghost predicate Open(e: Engine, thinking: bool, c: Control) {
    Ready(e, c) && c.raw == Spell(e, c.out) && (c.inThink ==> thinking && !Closed(c.raw))
  }

  /** The forcing part closes only open thinking, for its reason, and touches neither text nor report. */
  lemma ForceTells(e: Engine, cfg: Config, m: Model, c: Control)
    requires Ready(e, c)
    ensures var (token, d, kind, rank) := Force(e, cfg, m, c); var remaining := cfg.limit - |c.out|;
      && d.out == c.out && d.raw == c.raw && d.inThink == c.inThink && d.info == c.info
      && kind != Natural && (kind != NotClosed ==> c.inThink)
      && (kind == Hard ==> remaining <= cfg.hard)
      && (kind == Soft ==> cfg.hard < remaining <= cfg.soft && |e.close| == 1 && rank == m.closeRank(|c.out|) > 0)
  {
  }

  lemma StepTells(e: Engine, cfg: Config, m: Model, thinking: bool, c: Control)
    requires Open(e, thinking, c) && Told(e, cfg, m, thinking, c) && Step(e, cfg, m, c).1 != Broken
    ensures var d := Step(e, cfg, m, c).0; Open(e, thinking, d) && Told(e, cfg, m, thinking, d)
  {
    hide Closed, Spell, Force, Corrected;
    ForceTells(e, cfg, m, c);
    var n := |c.out|;
    var token := Corrected(e, m, n, Force(e, cfg, m, c).0.GetOr(m.sample(n)));
    SpellOne(e, c.out, token);
    var longer := c.out + [token];
    assert longer[..n] == c.out && longer[..n + 1] == longer;
    var i := c.info.index;
    if 0 < i <= n { assert longer[..i] == c.out[..i] && longer[..i - 1] == c.out[..i - 1]; }
  }

  lemma {:induction false} RunTells(e: Engine, cfg: Config, m: Model, thinking: bool, c: Control)
    requires Open(e, thinking, c) && Told(e, cfg, m, thinking, c)
    ensures var (d, status) := Run(e, cfg, m, c); status != Broken ==> Told(e, cfg, m, thinking, d)
    decreases cfg.limit - |c.out|
  {
    hide Step, Told;
    if |c.out| < cfg.limit {
      var (d, status) := Step(e, cfg, m, c);
      if status != Broken { StepTells(e, cfg, m, thinking, c); }
      if status == Running { RunTells(e, cfg, m, thinking, d); }
    }
  }

  /** Every run that does not fail reports truly how its thinking was closed. */
  lemma CloseIsReported(e: Engine, cfg: Config, m: Model, thinking: bool)
    requires e.answer != []
    ensures var (c, status) := Run(e, cfg, m, Start(thinking)); status != Broken ==> Told(e, cfg, m, thinking, c)
  {
    hide Run, Step;
    assert !Closed([]) by { FindSubNone([], THINK_CLOSE); }
    RunTells(e, cfg, m, thinking, Start(thinking));
  }
}
