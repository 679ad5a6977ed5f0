// What the headless loop gets done (ds4_agent.c:8143-8198, 9740-9875): input that has been
// quiet becomes a prompt and goes out, a queue goes to an idle worker, a drain request is
// answered with the whole queue, and the loop ends when there is nothing left to do. All
// this holds whatever the worker does between the steps of the UI.

module HandoffProgress {
  import opened Bytes
  import opened WorkerSections
  import opened Handoff
  import opened HandoffSafety

  /** How many steps of a run are the UI's. */
  function UiCount(es: seq<Event>): nat {
    if es == [] then 0 else (if IsWorkerEvent(es[0]) then 0 else 1) + UiCount(es[1..])
  }

  /** The UI's next judgement finds the quiet time over, or stdin has ended. */
  predicate QuietIsOver(s: State, es: seq<Event>) {
    s.ui.eof || match FirstUi(es) case None => true case Some(e) => e.UJudge? && e.ready
  }

  function FirstUi(es: seq<Event>): Option<Event> {
    if es == [] then None else if IsWorkerEvent(es[0]) then FirstUi(es[1..]) else Some(es[0])
  }

  /** A worker's step leaves the UI and its prompts alone. */
  lemma WorkerKeepsUi(s: State, e: Event)
    requires IsWorkerEvent(e) && May(s, e)
    ensures var t := Step(s, e);
      t.ui == s.ui && t.h.prompts == s.h.prompts && t.h.delivered == s.h.delivered && t.h.given == s.h.given
  {
  }

  // ---------------------------------------------------------------- the UI is never stuck

  /** Outside poll the UI can always go on; at poll it can with a byte in the pipe, pending input, or stdin to read. */
  lemma UiGoesOn(s: State) returns (e: Event)
    requires !s.ui.pc.Joined?
    requires s.ui.pc.Poll? ==> s.shared.pipe > 0 || s.ui.input != [] || (s.ui.pc.initialized && !s.ui.eof)
    ensures !IsWorkerEvent(e) && May(s, e)
  {
    match s.ui.pc {
      case Top => e := UReadInitialized;
      case Checked(_) => e := UReadIdle;
      case Decide(_, _) => e := USubmitQueue;
      case Poll(_) => e := UPollReturns(s.shared.pipe > 0);
      case Woken(_, _) => e := URead([], s.ui.eof);
      case Consuming => e := UConsume;
      case Taking(_) => e := UTakeRequest;
      case Answering(_) => e := UAnswer;
      case Judging(_) => e := UJudge(true);
      case Asking(_) => e := UAskIdle;
      case Offering(_) => e := UOffer;
      case Closing => e := UClose;
      case Leaving(_) => e := UFlush;
      case Joining(_) => e := UStop;
    }
  }

  /** A worker with a command is awake and starts it; one that is told to stop ends. */
  lemma WorkerGoesOn(es: seq<Event>)
    requires CanRun(INIT, es) && Run(INIT, es).worker == Loop
    ensures var s := Run(INIT, es); var sh := s.shared;
      && (sh.stop ==>
            && May(s, WLoop) && Step(s, WLoop).worker == Stopping
            && May(Step(s, WLoop), WStopped) && Step(Step(s, WLoop), WStopped).worker == Ended)
      && (!sh.stop && sh.cmd.Some? ==>
            && May(s, WLoop) && Step(s, WLoop).worker == Turn && Step(s, WLoop).shared.cmd.None?
            && Step(s, WLoop).h.received == s.h.received + [sh.cmd.value])
  {
    hide Run, CanRun, Marked, Answers, FailureSeen, Informed, Carried, InOrder, Flushed, UiStep, UiMay, LeaveDrain;
    InvReachable(es);
  }

  // ---------------------------------------------------------------- input becomes a prompt and goes out

  /** Prompts made that are delivered or queued. */
  function Placed(s: State): seq<bytes> {
    Flatten(s.h.delivered) + Flatten(s.ui.queue)
  }

  /** How many UI steps prompt `x`, the `m`th from 0, is away from being placed. */
  ghost predicate Away(s: State, m: nat, x: bytes, steps: nat) {
    && Inv(s)
    && (steps == 3 ==> s.ui.pc.Judging? && s.ui.pc.seen != Failed && s.ui.input == x && x != [] && |s.h.prompts| == m)
    && (steps == 2 ==> s.ui.pc == Asking(x) && |s.h.prompts| == m + 1 && s.h.prompts[m] == x)
    && (steps == 1 ==> s.ui.pc == Offering(x) && |s.h.prompts| == m + 1 && s.h.prompts[m] == x)
    && (steps == 0 ==> |Placed(s)| > m && Placed(s)[m] == x && |s.h.prompts| > m && s.h.prompts[m] == x)
    && steps <= 3
  }

  lemma AwayWorkerStep(s: State, m: nat, x: bytes, steps: nat, e: Event)
    requires Away(s, m, x, steps) && IsWorkerEvent(e) && May(s, e)
    ensures Away(Step(s, e), m, x, steps)
  {
    hide Inv, May, Step, Flatten;
    InvStep(s, e);
    WorkerKeepsUi(s, e);
  }

  /** Every step of the UI brings a prompt that is not placed one step nearer. */
  lemma AwayUiStep(s: State, m: nat, x: bytes, steps: nat, e: Event) returns (left: nat)
    requires Away(s, m, x, steps) && !IsWorkerEvent(e) && May(s, e)
    requires steps == 3 ==> s.ui.eof || (e.UJudge? && e.ready)
    ensures Away(Step(s, e), m, x, left) && (if steps == 0 then left == 0 else left < steps)
  {
    hide Inv, Flatten;
    InvStep(s, e);
    var t := Step(s, e);
    PlacedIs(s);
    PlacedIs(t);
    PromptsGrow(s, e);
    if steps == 0 {
      left := 0;
    } else if t.ui.pc == Asking(x) {
      left := 2;
    } else if t.ui.pc == Offering(x) {
      left := 1;
    } else {
      left := 0;
    }
  }

  /** What is placed are the prompts but for the one in hand. */
  lemma PlacedIs(s: State)
    requires Inv(s)
    ensures Placed(s) + Held(s.ui.pc) == s.h.prompts
  {
    hide Flatten, Ordered, Sleeps, Marked, Answers, FailureSeen, Informed, Carried, Flushed;
    var d, q := Flatten(s.h.delivered), Flatten(s.ui.queue);
    assert d + q + Held(s.ui.pc) == d + (q + Held(s.ui.pc));
  }

  lemma PromptsGrow(s: State, e: Event)
    requires May(s, e) && !IsWorkerEvent(e)
    ensures var t := Step(s, e);
      && s.h.prompts <= t.h.prompts
      && |t.h.prompts| - |Held(t.ui.pc)| >= |s.h.prompts| - |Held(s.ui.pc)|
  {
    hide Flatten, WorkerStep, WorkerMay;
  }

  lemma {:induction false} AwayRun(s: State, m: nat, x: bytes, steps: nat, es: seq<Event>) returns (left: nat)
    requires Away(s, m, x, steps) && steps <= 3 && CanRun(s, es) && (steps == 3 ==> QuietIsOver(s, es))
    ensures Away(Run(s, es), m, x, left) && (left == 0 || left + UiCount(es) <= steps)
    decreases |es|
  {
    hide Away, May, Step;
    left := steps;
    if es != [] {
      var e := es[0];
      if IsWorkerEvent(e) {
        AwayWorkerStep(s, m, x, steps, e);
        WorkerKeepsUi(s, e);
        left := AwayRun(Step(s, e), m, x, steps, es[1..]);
      } else {
        var next := AwayUiStep(s, m, x, steps, e);
        left := AwayRun(Step(s, e), m, x, next, es[1..]);
      }
    }
  }

  /**
   * Input goes out: from every reachable state at the judgement with input, no failure seen
   * and the quiet time over or stdin ended, the UI's next step makes the input the next
   * prompt, and within its next three steps that prompt is delivered or queued, whatever
   * the worker does in between.
   */
  lemma InputGoesOut(es: seq<Event>, more: seq<Event>)
    requires CanRun(INIT, es) && CanRun(Run(INIT, es), more)
    requires var s := Run(INIT, es); s.ui.pc.Judging? && s.ui.pc.seen != Failed && s.ui.input != [] && QuietIsOver(s, more)
    ensures var s, t := Run(INIT, es), Run(Run(INIT, es), more); var m := |s.h.prompts|;
      && (UiCount(more) >= 1 ==> |t.h.prompts| > m && t.h.prompts[m] == s.ui.input)
      && (UiCount(more) >= 3 ==> |Placed(t)| > m && Placed(t)[m] == s.ui.input)
  {
    hide Run, CanRun, Inv;
    InvReachable(es);
    var s := Run(INIT, es);
    var left := AwayRun(s, |s.h.prompts|, s.ui.input, 3, more);
  }

  /** Before its quiet time is over, and with stdin open, input is left alone. */
  lemma FreshInputWaits(s: State, e: Event)
    requires May(s, e) && e.UJudge? && !e.ready && !s.ui.eof && s.ui.pc.seen != Failed
    ensures Step(s, e) == s.(ui := s.ui.(pc := Closing))
  {
    hide Flatten;
  }

  // ---------------------------------------------------------------- an idle worker

  /** The worker has started up, is idle, and has been given nothing. */
  predicate Free(s: State) {
    s.worker == Loop && s.shared.status == Idle && s.shared.initialized && s.shared.cmd.None? && !s.shared.stop
  }

  /** An idle worker stays so until the UI gives it something. */
  lemma FreeStays(s: State, e: Event)
    requires Free(s) && IsWorkerEvent(e) && May(s, e)
    ensures Free(Step(s, e))
  {
  }

  lemma IdleIsFree(s: State)
    requires Inv(s) && s.worker == Loop && s.shared.status == Idle && !s.ui.pc.Joined?
    ensures Free(s)
  {
    hide Marked, Answers, FailureSeen, Informed, Carried, InOrder, Flushed, Sleeps;
  }

  /** The UI is `steps` steps from giving an idle worker what it has. */
  ghost predicate Giving(s: State, before: seq<Item>, item: Item, steps: nat) {
    if steps == 0 then before + [item] <= s.h.delivered
    else
      && Free(s) && s.h.delivered == before
      && (if s.ui.pc.Asking? || s.ui.pc.Offering? then s.ui.queue == [] && item == [s.ui.pc.prompt]
          else s.ui.queue != [] && item == Flatten(s.ui.queue))
      && (steps == 1 ==> s.ui.pc.Offering? || (s.ui.pc.Decide? && s.ui.pc.idle))
      && (steps == 2 ==> s.ui.pc.Asking? || s.ui.pc.Checked?) && steps <= 2
  }

  lemma DeliveredGrows(s: State, e: Event)
    requires May(s, e)
    ensures s.h.delivered <= Step(s, e).h.delivered
  {
    hide Flatten;
  }

  lemma GivingUiStep(s: State, before: seq<Item>, item: Item, steps: nat, e: Event)
    requires Giving(s, before, item, steps) && !IsWorkerEvent(e) && May(s, e)
    ensures Giving(Step(s, e), before, item, if steps == 0 then 0 else steps - 1)
  {
    hide Flatten, WorkerStep, WorkerMay;
    DeliveredGrows(s, e);
  }

  lemma GivingWorkerStep(s: State, before: seq<Item>, item: Item, steps: nat, e: Event)
    requires Giving(s, before, item, steps) && IsWorkerEvent(e) && May(s, e)
    ensures Giving(Step(s, e), before, item, steps)
  {
    hide Flatten, Step, May;
    WorkerKeepsUi(s, e);
    if steps > 0 { FreeStays(s, e); }
  }

  lemma {:induction false} GivingRun(s: State, before: seq<Item>, item: Item, steps: nat, es: seq<Event>)
    requires Giving(s, before, item, steps) && CanRun(s, es)
    ensures UiCount(es) >= steps ==> Giving(Run(s, es), before, item, 0)
    decreases |es|
  {
    hide Giving, May, Step;
    if es != [] {
      if IsWorkerEvent(es[0]) {
        GivingWorkerStep(s, before, item, steps, es[0]);
        GivingRun(Step(s, es[0]), before, item, steps, es[1..]);
      } else {
        GivingUiStep(s, before, item, steps, es[0]);
        GivingRun(Step(s, es[0]), before, item, if steps == 0 then 0 else steps - 1, es[1..]);
      }
    }
  }

  /**
   * An idle worker is given work: a prompt in hand with nothing queued before it goes to it
   * within the UI's next two steps, as one command.
   */
  lemma IdleWorkerGetsPrompt(es: seq<Event>, more: seq<Event>)
    requires CanRun(INIT, es) && CanRun(Run(INIT, es), more) && UiCount(more) >= 2
    requires var s := Run(INIT, es); s.ui.pc.Asking? && s.ui.queue == [] && s.worker == Loop && s.shared.status == Idle
    ensures var s := Run(INIT, es); s.h.delivered + [[s.ui.pc.prompt]] <= Run(s, more).h.delivered
  {
    hide Run, CanRun, Inv;
    InvReachable(es);
    var s := Run(INIT, es);
    IdleIsFree(s);
    GivingRun(s, s.h.delivered, [s.ui.pc.prompt], 2, more);
  }

  /** A queue met by an idle worker is submitted, all of it as one command, within the UI's next two steps. */
  lemma IdleWorkerGetsQueue(es: seq<Event>, more: seq<Event>)
    requires CanRun(INIT, es) && CanRun(Run(INIT, es), more) && UiCount(more) >= 2
    requires var s := Run(INIT, es); s.ui.pc.Checked? && s.ui.queue != [] && s.worker == Loop && s.shared.status == Idle
    ensures var s := Run(INIT, es); s.h.delivered + [Flatten(s.ui.queue)] <= Run(s, more).h.delivered
  {
    hide Run, CanRun, Inv, Flatten;
    InvReachable(es);
    var s := Run(INIT, es);
    IdleIsFree(s);
    GivingRun(s, s.h.delivered, Flatten(s.ui.queue), 2, more);
  }

  // ---------------------------------------------------------------- a drain request

  /** The UI is `steps` steps from answering a drain request with the queue it has. */
  ghost predicate Draining(s: State, before: seq<Option<Item>>, queue: seq<Item>, steps: nat) {
    if steps == 0 then before + [if queue == [] then None else Some(Flatten(queue))] <= s.h.given
    else
      && s.h.given == before && s.ui.queue == queue
      && (steps == 1 ==> s.ui.pc.Answering?) && (steps == 2 ==> s.ui.pc.Taking? && s.shared.drainPending) && steps <= 2
  }

  lemma DrainingStep(s: State, before: seq<Option<Item>>, queue: seq<Item>, steps: nat, e: Event)
    requires Draining(s, before, queue, steps) && Inv(s) && May(s, e)
    ensures Draining(Step(s, e), before, queue, if IsWorkerEvent(e) || steps == 0 then steps else steps - 1)
  {
    hide Flatten, Inv;
    if IsWorkerEvent(e) {
      WorkerKeepsUi(s, e);
      if s.shared.drainPending && s.ui.pc.Taking? { PendingStays(s, e); }
    }
  }

  /** Only the UI takes a request, while the loop runs. */
  lemma PendingStays(s: State, e: Event)
    requires Inv(s) && IsWorkerEvent(e) && May(s, e) && s.ui.pc.Taking? && s.shared.drainPending
    ensures Step(s, e).shared.drainPending
  {
    hide Flatten, Sleeps, Marked, FailureSeen, Informed, Carried, InOrder, Flushed, UiStep, UiMay;
  }

  lemma {:induction false} DrainingRun(s: State, before: seq<Option<Item>>, queue: seq<Item>, steps: nat, es: seq<Event>)
    requires Draining(s, before, queue, steps) && Inv(s) && CanRun(s, es)
    ensures UiCount(es) >= steps ==> Draining(Run(s, es), before, queue, 0)
    decreases |es|
  {
    hide Draining, May, Step, Inv;
    if es != [] {
      var t := Step(s, es[0]);
      DrainingStep(s, before, queue, steps, es[0]);
      InvStep(s, es[0]);
      DrainingRun(t, before, queue, if IsWorkerEvent(es[0]) || steps == 0 then steps else steps - 1, es[1..]);
    }
  }

  /** A drain request that the UI meets is answered within its next two steps, with all that is queued, or with nothing if nothing is. */
  lemma DrainGetsQueue(es: seq<Event>, more: seq<Event>)
    requires CanRun(INIT, es) && CanRun(Run(INIT, es), more) && UiCount(more) >= 2
    requires var s := Run(INIT, es); s.ui.pc.Taking? && s.shared.drainPending
    ensures var s := Run(INIT, es); var q := s.ui.queue;
      s.h.given + [if q == [] then None else Some(Flatten(q))] <= Run(s, more).h.given
  {
    hide Run, CanRun, Inv, Flatten;
    InvReachable(es);
    var s := Run(INIT, es);
    DrainingRun(s, s.h.given, s.ui.queue, 2, more);
  }

  // ---------------------------------------------------------------- the end of the loop

  /** The UI is `steps` steps from having joined the worker. */
  ghost predicate Ending(s: State, clean: bool, steps: nat) {
    && (steps == 0 ==> s.ui.pc == Joined(clean)) && (steps == 1 ==> s.ui.pc == Joining(clean))
    && (steps == 2 ==> s.ui.pc == Leaving(clean))
    && (steps == 3 ==> if clean then s.ui.pc == Closing && Finished(s.ui) && Free(s)
                       else s.ui.pc.Judging? && s.ui.pc.seen == Failed)
    && steps <= 3
  }

  lemma EndingStep(s: State, clean: bool, steps: nat, e: Event)
    requires Ending(s, clean, steps) && May(s, e)
    ensures Ending(Step(s, e), clean, if IsWorkerEvent(e) || steps == 0 then steps else steps - 1)
  {
    hide Flatten;
    if IsWorkerEvent(e) {
      WorkerKeepsUi(s, e);
      if Free(s) { FreeStays(s, e); }
    }
  }

  lemma {:induction false} EndingRun(s: State, clean: bool, steps: nat, es: seq<Event>)
    requires Ending(s, clean, steps) && CanRun(s, es)
    ensures UiCount(es) >= steps ==> Run(s, es).ui.pc == Joined(clean)
    decreases |es|
  {
    hide May, Step;
    if es != [] {
      EndingStep(s, clean, steps, es[0]);
      EndingRun(Step(s, es[0]), clean, if IsWorkerEvent(es[0]) || steps == 0 then steps else steps - 1, es[1..]);
    }
  }

  /** The loop ends: with stdin at its end, nothing pending and the worker idle, the UI has left cleanly and joined after three steps. */
  lemma DoneLoopEnds(es: seq<Event>, more: seq<Event>)
    requires CanRun(INIT, es) && CanRun(Run(INIT, es), more) && UiCount(more) >= 3
    requires var s := Run(INIT, es); s.ui.pc == Closing && Finished(s.ui) && s.worker == Loop && s.shared.status == Idle
    ensures Run(Run(INIT, es), more).ui.pc == Joined(true)
  {
    hide Run, CanRun, Inv;
    InvReachable(es);
    IdleIsFree(Run(INIT, es));
    EndingRun(Run(INIT, es), true, 3, more);
  }

  /** A failure that the UI has seen ends the loop uncleanly. */
  lemma FailedLoopEnds(s: State, more: seq<Event>)
    requires CanRun(s, more) && UiCount(more) >= 3 && s.ui.pc.Judging? && s.ui.pc.seen == Failed
    ensures Run(s, more).ui.pc == Joined(false)
  {
    hide Run, CanRun;
    EndingRun(s, false, 3, more);
  }
}
