// The lifecycle of one inference request (ds4_protocol_state.c): its phases, the
// record updated in place, and what every disciplined run of it keeps.

module Lifecycle {
  datatype Phase = Queued | Prefill | Decode | Recovery | Serialize | Complete | Error | Cancelled

  predicate IsTerminal(p: Phase) { p == Complete || p == Error || p == Cancelled }

  predicate TransitionAllowed(from: Phase, to: Phase) {
    if IsTerminal(from) then false
    else if IsTerminal(to) then true
    else
      match from
      case Queued => to == Prefill || to == Serialize
      case Prefill => to == Decode || to == Serialize
      case Decode => to == Recovery || to == Serialize
      case Recovery => to == Decode || to == Serialize
      case _ => false
  }

  datatype Record = Record(
    requestId: nat, phase: Phase, toolsEnabled: bool, recoveryAttempted: bool, terminal: bool,
    promptTokens: int, completionTokens: int, createdAt: real, lastProgressAt: real)

  datatype Call =
    | Transition(next: Phase)
    | BeginRecovery
    | Finish(outcome: Phase)
    | Progress(promptTokens: int, completionTokens: int)

  /** The record after a call at time `now`, and what the call returns. */
  function Apply(s: Record, call: Call, now: real): (Record, bool) {
    match call
    case Transition(next) =>
      if TransitionAllowed(s.phase, next) then (s.(phase := next, lastProgressAt := now), true) else (s, false)
    case BeginRecovery =>
      if s.recoveryAttempted || s.phase != Decode then (s, false)
      else (s.(recoveryAttempted := true, phase := Recovery, lastProgressAt := now), true)
    case Finish(outcome) =>
      if !IsTerminal(outcome) || s.terminal || !TransitionAllowed(s.phase, outcome) then (s, false)
      else (s.(phase := outcome, lastProgressAt := now, terminal := true), true)
    case Progress(p, c) =>
      if s.terminal then (s, false)
      else (s.(promptTokens := if p >= 0 then p else s.promptTokens,
               completionTokens := if c >= 0 then c else s.completionTokens,
               lastProgressAt := now), false)
  }

  class State {
    var requestId: nat
    var phase: Phase
    var toolsEnabled: bool
    var recoveryAttempted: bool
    var terminal: bool
    var promptTokens: int
    var completionTokens: int
    var createdAt: real
    var lastProgressAt: real

    function View(): Record
      reads this
    {
      Record(requestId, phase, toolsEnabled, recoveryAttempted, terminal, promptTokens, completionTokens, createdAt, lastProgressAt)
    }

    /** `ds4_protocol_state_init`. */
    constructor (id: nat, tools: bool, now: real)
      ensures View() == Begin(id, tools, now)
    {
      requestId, phase, toolsEnabled := id, Queued, tools;
      recoveryAttempted, terminal, promptTokens, completionTokens := false, false, 0, 0;
      createdAt, lastProgressAt := now, now;
    }

    /** `ds4_protocol_transition`. */
    method Transition(next: Phase, now: real) returns (ok: bool)
      modifies this
      ensures (View(), ok) == Apply(old(View()), Call.Transition(next), now)
    {
      if !TransitionAllowed(phase, next) { return false; }
      phase := next;
      lastProgressAt := now;
      return true;
    }

    /** `ds4_protocol_begin_recovery`. */
    method BeginRecovery(now: real) returns (ok: bool)
      modifies this
      ensures (View(), ok) == Apply(old(View()), Call.BeginRecovery, now)
    {
      if recoveryAttempted || phase != Decode { return false; }
      recoveryAttempted := true;
      ok := Transition(Recovery, now);
    }

    /** `ds4_protocol_finish`. */
    method Finish(outcome: Phase, now: real) returns (ok: bool)
      modifies this
      ensures (View(), ok) == Apply(old(View()), Call.Finish(outcome), now)
    {
      if !IsTerminal(outcome) || terminal { return false; }
      ok := Transition(outcome, now);
      if !ok { return false; }
      terminal := true;
      return true;
    }

    /** `ds4_protocol_progress`. */
    method Progress(prompt: int, completion: int, now: real)
      modifies this
      ensures View() == Apply(old(View()), Call.Progress(prompt, completion), now).0
    {
      if terminal { return; }
      if prompt >= 0 { promptTokens := prompt; }
      if completion >= 0 { completionTokens := completion; }
      lastProgressAt := now;
    }
  }

  // ---------------------------------------------------------------- what a call records

  /** The phase changes there are, one by one; any open phase may also end. */
  lemma ChangesAllowed(from: Phase, to: Phase)
    ensures TransitionAllowed(from, to) <==>
              || (!IsTerminal(from) && to in {Complete, Error, Cancelled})
              || (from, to) in {(Queued, Prefill), (Queued, Serialize), (Prefill, Decode), (Prefill, Serialize),
                                (Decode, Recovery), (Decode, Serialize), (Recovery, Decode), (Recovery, Serialize)}
  {
  }

  /** A finish that succeeds records exactly its outcome; it succeeds once, for a terminal outcome of an open record. */
  lemma FinishRecords(s: Record, outcome: Phase, now: real)
    ensures var (t, ok) := Apply(s, Finish(outcome), now);
      && (ok <==> outcome in {Complete, Error, Cancelled} && !s.terminal && s.phase !in {Complete, Error, Cancelled})
      && (ok ==> t.phase == outcome && t.terminal && t.lastProgressAt == now)
      && t == if ok then s.(phase := outcome, terminal := true, lastProgressAt := now) else s
  {
  }

  /** A plain change records its phase and time and nothing else, and recovery is entered once. */
  lemma ChangeRecords(s: Record, next: Phase, now: real)
    ensures var (t, ok) := Apply(s, Transition(next), now);
      (ok <==> TransitionAllowed(s.phase, next)) && t == if ok then s.(phase := next, lastProgressAt := now) else s
    ensures var (t, ok) := Apply(s, BeginRecovery, now);
      && (ok <==> s.phase == Decode && !s.recoveryAttempted)
      && t == if ok then s.(phase := Recovery, recoveryAttempted := true, lastProgressAt := now) else s
  {
  }

  /** Progress sets each counter that is not negative, and the time, on every record that is not terminal. */
  lemma ProgressRecords(s: Record, p: int, c: int, now: real)
    ensures var t := Apply(s, Progress(p, c), now).0;
      if s.terminal then t == s
      else && t.lastProgressAt == now && t.promptTokens == (if p < 0 then s.promptTokens else p)
           && t.completionTokens == (if c < 0 then s.completionTokens else c)
           && t == s.(promptTokens := t.promptTokens, completionTokens := t.completionTokens, lastProgressAt := now)
  {
  }

  // ---------------------------------------------------------------- runs

  function Begin(id: nat, tools: bool, now: real): Record {
    Record(id, Queued, tools, false, false, 0, 0, now, now)
  }

  datatype Step = Step(call: Call, now: real)

  /** Callers enter RECOVERY only by `begin_recovery` and a terminal phase only by `finish`. */
  predicate Disciplined(run: seq<Step>) {
    forall i :: 0 <= i < |run| && run[i].call.Transition? ==>
      run[i].call.next != Recovery && !IsTerminal(run[i].call.next)
  }

  function After(s: Record, run: seq<Step>): Record
    decreases |run|
  {
    if run == [] then s else After(Apply(s, run[0].call, run[0].now).0, run[1..])
  }

  datatype Tally = Tally(recoveries: nat, finishes: nat, changes: nat)

  /** Successful recoveries, finishes and phase changes of a run. */
  function Count(s: Record, run: seq<Step>): Tally
    decreases |run|
  {
    if run == [] then Tally(0, 0, 0)
    else
      var (t, ok) := Apply(s, run[0].call, run[0].now);
      var rest := Count(t, run[1..]);
      Tally(rest.recoveries + (if ok && run[0].call.BeginRecovery? then 1 else 0),
            rest.finishes + (if ok && run[0].call.Finish? then 1 else 0),
            rest.changes + (if ok then 1 else 0))
  }

  /** Phase changes a disciplined run can still make. */
  function Budget(s: Record): nat {
    match s.phase
    case Queued => 6
    case Prefill => 5
    case Decode => if s.recoveryAttempted then 2 else 4
    case Recovery => 3
    case Serialize => 1
    case _ => 0
  }

  ghost predicate Inv(s: Record) {
    && (s.terminal <==> IsTerminal(s.phase))
    && (s.phase == Recovery ==> s.recoveryAttempted)
    && (s.phase == Queued || s.phase == Prefill ==> !s.recoveryAttempted)
  }

  lemma StepKeeps(s: Record, call: Call, now: real)
    requires Inv(s) && (call.Transition? ==> call.next != Recovery && !IsTerminal(call.next))
    ensures var (t, ok) := Apply(s, call, now);
      && Inv(t) && Budget(t) + (if ok then 1 else 0) <= Budget(s)
      && (ok && call.BeginRecovery? ==> !s.recoveryAttempted) && (s.recoveryAttempted ==> t.recoveryAttempted)
      && (ok && call.BeginRecovery? ==> t.recoveryAttempted)
      && (ok && call.Finish? ==> !s.terminal && t.terminal)
      && (ok ==> t.phase != s.phase)
  {
  }

  /** A record that has finished never changes again, whatever is called. */
  lemma {:induction false} FinishedIsFinal(s: Record, run: seq<Step>)
    requires s.terminal && IsTerminal(s.phase)
    ensures After(s, run) == s && Count(s, run) == Tally(0, 0, 0)
    decreases |run|
  {
    if run != [] { FinishedIsFinal(s, run[1..]); }
  }

  lemma {:induction false} RunFrom(s: Record, run: seq<Step>)
    requires Inv(s) && Disciplined(run)
    ensures Inv(After(s, run)) && Count(s, run).changes + Budget(After(s, run)) <= Budget(s)
    ensures Count(s, run).recoveries <= if s.recoveryAttempted then 0 else 1
    ensures Count(s, run).finishes == if !s.terminal && After(s, run).terminal then 1 else 0
    decreases |run|
  {
    if run != [] {
      StepKeeps(s, run[0].call, run[0].now);
      var t := Apply(s, run[0].call, run[0].now).0;
      assert forall i :: 0 <= i < |run[1..]| ==> run[1..][i] == run[i + 1];
      RunFrom(t, run[1..]);
      if t.terminal { FinishedIsFinal(t, run[1..]); }
    }
  }

  /**
   * Every disciplined run from the start: at most one recovery, at most one finish
   * (one exactly if the record ended terminal), at most six phase changes, and the
   * terminal flag always says whether the phase is terminal.
   */
  lemma LifecycleBounds(id: nat, tools: bool, now: real, run: seq<Step>)
    requires Disciplined(run)
    ensures var s := After(Begin(id, tools, now), run); var n := Count(Begin(id, tools, now), run);
      && n.recoveries <= 1 && n.finishes <= 1 && n.changes <= 6
      && (n.finishes == 1 <==> s.terminal) && (s.terminal <==> IsTerminal(s.phase))
  {
    RunFrom(Begin(id, tools, now), run);
  }

  /** Six is reached: through recovery and back to a completed answer. */
  lemma SixChangesHappen(id: nat, now: real)
    ensures var run := [Step(Transition(Prefill), now), Step(Transition(Decode), now), Step(BeginRecovery, now),
                        Step(Transition(Decode), now), Step(Transition(Serialize), now), Step(Finish(Complete), now)];
      Disciplined(run) && Count(Begin(id, true, now), run) == Tally(1, 1, 6)
  {
    var s0 := Begin(id, true, now);
    var calls := [Transition(Prefill), Transition(Decode), BeginRecovery, Transition(Decode), Transition(Serialize), Finish(Complete)];
    var run := [Step(calls[0], now), Step(calls[1], now), Step(calls[2], now), Step(calls[3], now), Step(calls[4], now), Step(calls[5], now)];
    var s1 := Apply(s0, calls[0], now).0;
    var s2 := Apply(s1, calls[1], now).0;
    var s3 := Apply(s2, calls[2], now).0;
    var s4 := Apply(s3, calls[3], now).0;
    var s5 := Apply(s4, calls[4], now).0;
    var s6 := Apply(s5, calls[5], now).0;
    assert Count(s6, run[6..]) == Tally(0, 0, 0);
    assert run[5..][1..] == run[6..] && Count(s5, run[5..]) == Tally(0, 1, 1);
    assert run[4..][1..] == run[5..] && Count(s4, run[4..]) == Tally(0, 1, 2);
    assert run[3..][1..] == run[4..] && Count(s3, run[3..]) == Tally(0, 1, 3);
    assert run[2..][1..] == run[3..] && Count(s2, run[2..]) == Tally(1, 1, 4);
    assert run[1..][1..] == run[2..] && Count(s1, run[1..]) == Tally(1, 1, 5);
  }

  /** The discipline is needed: `transition` alone can enter RECOVERY again and again ... */
  lemma {:induction false} UndisciplinedNeverEnds(s: Record, n: nat, now: real) returns (run: seq<Step>)
    requires s.phase == Decode
    ensures Count(s, run).changes == 2 * n && After(s, run).phase == Decode
    decreases n
  {
    if n == 0 {
      run := [];
    } else {
      var there := Apply(s, Transition(Recovery), now).0;
      var back := Apply(there, Transition(Decode), now).0;
      var rest := UndisciplinedNeverEnds(back, n - 1, now);
      var tail := [Step(Transition(Decode), now)] + rest;
      run := [Step(Transition(Recovery), now)] + tail;
      assert run[1..] == tail && tail[1..] == rest;
      assert Count(there, tail).changes == 2 * n - 1;
    }
  }

  /** Plain transitions into RECOVERY that succeed in a run. */
  function PlainRecoveries(s: Record, run: seq<Step>): nat
    decreases |run|
  {
    if run == [] then 0
    else
      var (t, ok) := Apply(s, run[0].call, run[0].now);
      (if ok && run[0].call == Transition(Recovery) then 1 else 0) + PlainRecoveries(t, run[1..])
  }

  /** A plain transition into a terminal phase succeeds in a run. */
  predicate EndsPlainly(s: Record, run: seq<Step>)
    decreases |run|
  {
    run != [] &&
    var (t, ok) := Apply(s, run[0].call, run[0].now);
    (ok && run[0].call.Transition? && IsTerminal(run[0].call.next)) || EndsPlainly(t, run[1..])
  }

  /** A record in a terminal phase without the mark stays so: nothing can mark it or leave the phase. */
  lemma {:induction false} UnmarkedStays(s: Record, run: seq<Step>)
    requires IsTerminal(s.phase) && !s.terminal
    ensures After(s, run).phase == s.phase && !After(s, run).terminal && Count(s, run) == Tally(0, 0, 0)
    decreases |run|
  {
    if run != [] { UnmarkedStays(Apply(s, run[0].call, run[0].now).0, run[1..]); }
  }

  /**
   * The terminal flag, for every run: from a record whose flag says whether its phase is
   * terminal, the flag is right at the end exactly when no plain transition into a
   * terminal phase succeeded.
   */
  lemma {:induction false} FlagIsRightExactly(s: Record, run: seq<Step>)
    requires s.terminal <==> IsTerminal(s.phase)
    ensures (After(s, run).terminal <==> IsTerminal(After(s, run).phase)) <==> !EndsPlainly(s, run)
    decreases |run|
  {
    if run != [] {
      var t := Apply(s, run[0].call, run[0].now).0;
      if t.terminal <==> IsTerminal(t.phase) {
        FlagIsRightExactly(t, run[1..]);
      } else {
        UnmarkedStays(t, run[1..]);
      }
    }
  }

  /** Phase changes any record can still make without a plain entry into recovery. */
  function Reserve(s: Record): nat {
    if s.phase == Recovery && !s.recoveryAttempted then 5 else Budget(s)
  }

  lemma {:induction false} ChangesFrom(s: Record, run: seq<Step>)
    requires s.phase == Queued || s.phase == Prefill ==> !s.recoveryAttempted
    ensures Count(s, run).changes + Reserve(After(s, run)) <= Reserve(s) + 2 * PlainRecoveries(s, run)
    ensures Count(s, run).recoveries <= if s.recoveryAttempted then 0 else 1
    decreases |run|
  {
    if run != [] {
      hide Apply, Reserve;
      ChangeStep(s, run[0].call, run[0].now);
      ChangesFrom(Apply(s, run[0].call, run[0].now).0, run[1..]);
    }
  }

  lemma ChangeStep(s: Record, call: Call, now: real)
    requires s.phase == Queued || s.phase == Prefill ==> !s.recoveryAttempted
    ensures var (t, ok) := Apply(s, call, now);
      && (t.phase == Queued || t.phase == Prefill ==> !t.recoveryAttempted)
      && Reserve(t) + (if ok then 1 else 0) <= Reserve(s) + (if ok && call == Transition(Recovery) then 2 else 0)
      && (s.recoveryAttempted ==> t.recoveryAttempted)
      && (ok && call.BeginRecovery? ==> !s.recoveryAttempted && t.recoveryAttempted)
  {
  }

  /**
   * Every run, disciplined or not: `begin_recovery` succeeds at most once, and there are
   * at most six phase changes and two more for each plain entry into recovery.
   */
  lemma ChangesAreBounded(id: nat, tools: bool, now: real, run: seq<Step>)
    ensures var s := Begin(id, tools, now);
      Count(s, run).recoveries <= 1 && Count(s, run).changes <= 6 + 2 * PlainRecoveries(s, run)
  {
    ChangesFrom(Begin(id, tools, now), run);
  }

  /**
   * A record that ended by a plain transition takes progress for ever, while nothing else
   * changes it: neither recovery nor any other phase can follow.
   */
  lemma UndisciplinedEndStillMoves(s: Record, outcome: Phase, now: real, later: real)
    requires !IsTerminal(s.phase) && !s.terminal && IsTerminal(outcome)
    ensures var t := Apply(s, Transition(outcome), now).0;
      && t.phase == outcome && !t.terminal
      && (forall p: nat, c: nat :: Apply(t, Progress(p, c), later).0
                                   == t.(promptTokens := p, completionTokens := c, lastProgressAt := later))
      && (forall call: Call :: !call.Progress? ==> Apply(t, call, later) == (t, false))
  {
  }
}
