// What every reachable state of the hand-off satisfies: no lost wake-up, one answer per
// request, every prompt delivered once and in order, nobody asleep while there is work.

module HandoffSafety {
  import opened Bytes
  import opened WorkerSections
  import opened Handoff

  // ---------------------------------------------------------------- who may wait

  /** What the status, the command and the two threads' places say about each other. */
  predicate Ordered(s: State) {
    var sh := s.shared;
    && (sh.initialized <==> s.worker != Starting)
    && (sh.stop ==> s.ui.pc.Joined?) && (s.worker == Stopping || s.worker == Ended ==> sh.stop)
    && (s.worker == Turn || s.worker == Drain ==> sh.status == Busy && sh.cmd.None?)
    && (s.worker == Starting ==> sh.cmd.None? && sh.status != Stopped)
    && (s.worker == Loop ==> sh.status == Idle || sh.status == Failed || sh.status == Busy)
    && (s.worker == Loop && sh.status == Busy ==> sh.cmd.Some?)
    && (s.worker != Stopping && s.worker != Ended && sh.cmd.Some? ==> s.worker == Loop && sh.status == Busy)
    && (s.worker == Stopping ==> sh.status != Stopped)
  }

  /** A worker that waits has nothing to do: no command, no answer, no stop. */
  predicate Sleeps(s: State) {
    var sh := s.shared;
    s.shared.waiting ==>
      && !sh.stop
      && (s.worker == Loop ==> sh.cmd.None?) && (s.worker == Drain ==> !sh.drainAnswered)
      && (s.worker == Loop || s.worker == Drain)
  }

  lemma OrderedWorkerStep(s: State, e: Event)
    requires Ordered(s) && IsWorkerEvent(e) && May(s, e)
    ensures Ordered(Step(s, e))
  {
    hide Flatten, Push, UiStep, UiMay;
  }

  lemma OrderedUiStep(s: State, e: Event)
    requires Ordered(s) && !IsWorkerEvent(e) && May(s, e)
    ensures Ordered(Step(s, e))
  {
    hide Flatten, Push, WorkerStep, WorkerMay, LeaveDrain;
  }

  lemma SleepsWorkerStep(s: State, e: Event)
    requires Ordered(s) && Sleeps(s) && IsWorkerEvent(e) && May(s, e)
    ensures Sleeps(Step(s, e))
  {
    hide Flatten, Push, UiStep, UiMay;
  }

  lemma SleepsUiStep(s: State, e: Event)
    requires Ordered(s) && Sleeps(s) && !IsWorkerEvent(e) && May(s, e)
    ensures Sleeps(Step(s, e))
  {
    hide Flatten, Push, WorkerStep, WorkerMay, LeaveDrain;
  }

  // ---------------------------------------------------------------- wake-ups

  /** The UI has consumed and not yet emptied the pipe again. */
  predicate Fresh(pc: UiPc) {
    !pc.Consuming? && !(pc.Woken? && pc.byWorker)
  }

  /** The loop is over and its output flushed. */
  predicate Left(pc: UiPc) {
    pc.Joining? || pc.Joined?
  }

  function Count(b: bool): nat {
    if b then 1 else 0
  }

  predicate Pending(sh: Shared, h: History) {
    sh.out != [] || h.dirty
  }

  /**
   * Output or a status change since the last consume is marked, and so is a drain request
   * that the UI has still to look for; after a consume a mark comes with a byte.
   */
  predicate Marked(s: State) {
    var sh, pc := s.shared, s.ui.pc;
    && (Pending(sh, s.h) ==> sh.wakePending)
    && (sh.drainPending && !pc.Taking? && !Left(pc) ==> sh.wakePending)
    && (Fresh(pc) && sh.wakePending ==> sh.pipe > 0)
    && (pc.Woken? && pc.byWorker ==> sh.pipe > 0)
    && sh.pipe <= (if pc.Consuming? || (pc.Woken? && !pc.byWorker) then 0 else if Left(pc) then 2 else 1) + Count(sh.wakePending)
  }

  lemma MarkedWorkerStep(s: State, e: Event)
    requires Marked(s) && IsWorkerEvent(e) && May(s, e)
    ensures Marked(Step(s, e))
  {
    hide Flatten, Push, UiStep, UiMay;
  }

  lemma MarkedUiStep(s: State, e: Event)
    requires Marked(s) && !IsWorkerEvent(e) && May(s, e)
    ensures Marked(Step(s, e))
  {
    hide Flatten, Push, WorkerStep, WorkerMay, LeaveDrain;
  }

  // ---------------------------------------------------------------- drain requests

  /**
   * A drain in progress is in exactly one place: asked for, being answered, or answered.
   * Requests, answers given and answers received are in step.
   */
  predicate Answers(s: State) {
    var sh, h := s.shared, s.h;
    && (!sh.drainAnswered ==> sh.drainText.None?)
    && |h.given| == |h.got| + Count(sh.drainAnswered)
    && h.got == h.given[..|h.got|]
    && (sh.drainAnswered ==> h.given[|h.got|] == sh.drainText && s.worker == Drain)
    && (!sh.stop ==> h.asked == |h.got| + Count(s.worker == Drain))
    && (!sh.stop ==> Count(sh.drainPending) + Count(s.ui.pc.Answering?) + Count(sh.drainAnswered) == Count(s.worker == Drain))
  }

  lemma AnswersWorkerStep(s: State, e: Event)
    requires Ordered(s) && Answers(s) && IsWorkerEvent(e) && May(s, e)
    ensures Answers(Step(s, e))
  {
    hide Flatten, Push, UiStep, UiMay;
  }

  lemma AnswersUiStep(s: State, e: Event)
    requires Ordered(s) && Answers(s) && !IsWorkerEvent(e) && May(s, e)
    ensures Answers(Step(s, e))
  {
    hide Flatten, Push, WorkerStep, WorkerMay, LeaveDrain;
  }

  // ---------------------------------------------------------------- progress

  /** With this the UI would have to act: something to submit, or nothing left to wait for. */
  predicate Ready(s: State) {
    IsIdle(s.shared)
  }

  predicate Finished(ui: Ui) {
    ui.eof && ui.input == [] && ui.queue == []
  }

  /** A status the UI carries away from a consume. */
  predicate Saw(pc: UiPc, status: Status) {
    (pc.Taking? || pc.Answering? || pc.Judging?) && pc.seen == status
  }

  /** A failure stays, and the UI has yet to consume it or has seen it and will leave. */
  predicate FailureSeen(s: State) {
    var sh, pc := s.shared, s.ui.pc;
    && (sh.status == Failed ==> s.h.late || Saw(pc, Failed) || pc == Leaving(false) || Left(pc))
    && (Saw(pc, Failed) || pc == Leaving(false) ==> sh.status == Failed && !s.h.late)
    && (s.h.late && !Left(pc) ==> sh.status == Failed && s.h.dirty)
  }

  lemma FailureSeenWorkerStep(s: State, e: Event)
    requires Ordered(s) && FailureSeen(s) && IsWorkerEvent(e) && May(s, e)
    ensures FailureSeen(Step(s, e))
  {
    hide Flatten, Push, UiStep, UiMay;
  }

  lemma FailureSeenUiStep(s: State, e: Event)
    requires Ordered(s) && FailureSeen(s) && !IsWorkerEvent(e) && May(s, e)
    ensures FailureSeen(Step(s, e))
  {
    hide Flatten, Push, WorkerStep, WorkerMay, LeaveDrain;
  }

  /** What the UI knows about the worker when it goes to sleep is still true, or a change is marked. */
  predicate Informed(s: State) {
    var sh, pc, dirty := s.shared, s.ui.pc, s.h.dirty;
    && ((pc.Checked? || pc.Decide? || pc.Poll?) && !pc.initialized && sh.initialized ==> dirty)
    && (pc.Decide? && pc.idle ==> Ready(s))
    && (pc.Decide? && !pc.idle && Ready(s) ==> dirty)
    && (pc.Poll? && s.ui.queue != [] && Ready(s) ==> dirty)
    && (pc.Top? || pc.Checked? || pc.Decide? || pc.Poll? ==> (Finished(s.ui) && Ready(s) ==> dirty))
    && (pc == Leaving(true) ==> Ready(s) && Finished(s.ui))
  }

  lemma InformedWorkerStep(s: State, e: Event)
    requires Ordered(s) && Informed(s) && IsWorkerEvent(e) && May(s, e)
    ensures Informed(Step(s, e))
  {
    hide Flatten, Push, UiStep, UiMay;
  }

  lemma InformedUiStep(s: State, e: Event)
    requires Ordered(s) && FailureSeen(s) && Informed(s) && !IsWorkerEvent(e) && May(s, e)
    ensures Informed(Step(s, e))
  {
    hide Flatten, Push, WorkerStep, WorkerMay, LeaveDrain;
  }

  // ---------------------------------------------------------------- delivery

  lemma {:induction false} FlattenConcat(a: seq<Item>, b: seq<Item>)
    ensures Flatten(a + b) == Flatten(a) + Flatten(b)
  {
    if a == [] {
      assert a + b == b;
    } else {
      assert (a + b)[1..] == a[1..] + b;
      FlattenConcat(a[1..], b);
    }
  }

  lemma FlattenOne(item: Item)
    ensures Flatten([item]) == item
  {
    assert [item][1..] == [];
  }

  lemma {:induction false} ConcatAppend(a: seq<bytes>, b: bytes)
    ensures Concat(a + [b]) == Concat(a) + b
  {
    if a == [] {
      assert [b][1..] == [];
    } else {
      assert (a + [b])[1..] == a[1..] + [b];
      ConcatAppend(a[1..], b);
    }
  }

  /** Items accepted by the worker that it has not started or received yet. */
  function Transit(sh: Shared): seq<Item> {
    (if sh.cmd.Some? then [sh.cmd.value] else [])
    + (if sh.drainAnswered && sh.drainText.Some? then [sh.drainText.value] else [])
  }

  /** The prompt the UI is about to hand over. */
  function Held(pc: UiPc): seq<bytes> {
    if pc.Asking? || pc.Offering? then [pc.prompt] else []
  }

  /** The worker has started or received what it accepted, but for what is in transit. */
  predicate Carried(s: State) {
    s.h.received + Transit(s.shared) == s.h.delivered
  }

  lemma CarriedWorkerStep(s: State, e: Event)
    requires Ordered(s) && Answers(s) && Carried(s) && IsWorkerEvent(e) && May(s, e)
    ensures Carried(Step(s, e))
  {
    hide Flatten, Push, UiStep, UiMay;
  }

  lemma CarriedUiStep(s: State, e: Event)
    requires Ordered(s) && Answers(s) && Carried(s) && !IsWorkerEvent(e) && May(s, e)
    ensures Carried(Step(s, e))
  {
    hide Flatten, Push, WorkerStep, WorkerMay, LeaveDrain;
  }

  /** Delivered messages, then queued ones, then the one in hand, are the prompts in order; the bytes read are the prompts and the input. */
  predicate InOrder(s: State) {
    && Flatten(s.h.delivered) + (Flatten(s.ui.queue) + Held(s.ui.pc)) == s.h.prompts
    && Concat(s.h.prompts) + s.ui.input == s.h.stdin
    && (s.ui.pc.Offering? ==> s.ui.queue == [])
  }

  lemma InOrderWorkerStep(s: State, e: Event)
    requires InOrder(s) && IsWorkerEvent(e) && May(s, e)
    ensures InOrder(Step(s, e))
  {
    hide Flatten, Concat, UiStep, UiMay;
  }

  lemma InOrderUiStep(s: State, e: Event)
    requires InOrder(s) && !IsWorkerEvent(e) && May(s, e)
    ensures InOrder(Step(s, e))
  {
    hide InOrder, Step, May;
    match e {
      case URead(text, _) => InOrderRead(s, e);
      case UJudge(_) => InOrderJudge(s, e);
      case UAskIdle => InOrderAskIdle(s, e);
      case UOffer => InOrderOffer(s, e);
      case USubmitQueue => InOrderSubmitQueue(s, e);
      case UAnswer => InOrderAnswer(s, e);
      case _ => InOrderOther(s, e);
    }
  }

  lemma InOrderRead(s: State, e: Event)
    requires InOrder(s) && e.URead? && May(s, e)
    ensures InOrder(Step(s, e))
  {
    hide Flatten, Concat, WorkerStep, WorkerMay;
    assert Concat(s.h.prompts) + (s.ui.input + e.text) == s.h.stdin + e.text;
  }

  lemma InOrderJudge(s: State, e: Event)
    requires InOrder(s) && e.UJudge? && May(s, e)
    ensures InOrder(Step(s, e))
  {
    hide Flatten, Concat, WorkerStep, WorkerMay;
    ConcatAppend(s.h.prompts, s.ui.input);
  }

  lemma InOrderAskIdle(s: State, e: Event)
    requires InOrder(s) && e.UAskIdle? && May(s, e)
    ensures InOrder(Step(s, e))
  {
    hide Flatten, Concat, WorkerStep, WorkerMay;
    NothingFlat();
    FlattenConcat(s.ui.queue, [[s.ui.pc.prompt]]);
    FlattenOne([s.ui.pc.prompt]);
  }

  lemma InOrderOffer(s: State, e: Event)
    requires InOrder(s) && e.UOffer? && May(s, e)
    ensures InOrder(Step(s, e))
  {
    hide Flatten, Concat, WorkerStep, WorkerMay;
    NothingFlat();
    FlattenConcat(s.ui.queue, [[s.ui.pc.prompt]]);
    FlattenConcat(s.h.delivered, [[s.ui.pc.prompt]]);
    FlattenOne([s.ui.pc.prompt]);
  }

  lemma InOrderSubmitQueue(s: State, e: Event)
    requires InOrder(s) && e.USubmitQueue? && May(s, e)
    ensures InOrder(Step(s, e))
  {
    hide Flatten, Concat, WorkerStep, WorkerMay;
    var d, q := s.h.delivered, s.ui.queue;
    NothingFlat();
    FlattenConcat(d, [Flatten(q)]);
    FlattenOne(Flatten(q));
  }

  lemma InOrderAnswer(s: State, e: Event)
    requires InOrder(s) && e.UAnswer? && May(s, e)
    ensures InOrder(Step(s, e))
  {
    hide Flatten, Concat, WorkerStep, WorkerMay;
    var d, q := s.h.delivered, s.ui.queue;
    NothingFlat();
    FlattenConcat(d, [Flatten(q)]);
    FlattenOne(Flatten(q));
    FlattenConcat(d, []);
  }

  lemma InOrderOther(s: State, e: Event)
    requires InOrder(s) && !IsWorkerEvent(e) && May(s, e)
    requires !e.URead? && !e.UJudge? && !e.UAskIdle? && !e.UOffer? && !e.USubmitQueue? && !e.UAnswer?
    ensures InOrder(Step(s, e))
  {
    hide Flatten, Concat, WorkerStep, WorkerMay;
  }

  lemma NothingInTransit(s: State)
    requires Answers(s) && Carried(s) && InOrder(s)
    requires s.shared.cmd.None? && s.worker != Drain && s.ui.queue == [] && Held(s.ui.pc) == []
    ensures Flatten(s.h.received) == s.h.prompts
  {
    hide Flatten, Concat;
    NothingFlat();
    assert Transit(s.shared) == [];
    assert s.h.received + [] == s.h.received;
  }

  lemma NothingFlat()
    ensures Flatten([]) == []
  {
  }

  // ---------------------------------------------------------------- leaving

  /** Output is written in order, and once the loop is over nothing more is published. */
  predicate Flushed(s: State) {
    var sh, pc := s.shared, s.ui.pc;
    && s.h.published == s.h.shown + sh.out
    && (pc.Leaving? || Left(pc) ==>
          && (s.worker == Starting ==> sh.status == Failed)
          && (s.worker == Loop ==> sh.cmd.None?)
          && s.worker != Turn && s.worker != Drain)
    && (Left(pc) ==> sh.out == [])
    && ((pc.Leaving? || Left(pc)) && pc.clean ==> Finished(s.ui) && s.worker != Starting && sh.cmd.None?)
  }

  lemma FlushedWorkerStep(s: State, e: Event)
    requires Ordered(s) && Flushed(s) && IsWorkerEvent(e) && May(s, e)
    ensures Flushed(Step(s, e))
  {
    hide Flatten, Push, UiStep, UiMay;
  }

  lemma FlushedUiStep(s: State, e: Event)
    requires Ordered(s) && FailureSeen(s) && Flushed(s) && !IsWorkerEvent(e) && May(s, e)
    ensures Flushed(Step(s, e))
  {
    hide Flatten, Push, WorkerStep, WorkerMay, LeaveDrain;
  }

  // ---------------------------------------------------------------- every reachable state

  predicate Inv(s: State) {
    Ordered(s) && Sleeps(s) && Marked(s) && Answers(s) && FailureSeen(s) && Informed(s) && Carried(s) && InOrder(s) && Flushed(s)
  }

  lemma InvStep(s: State, e: Event)
    requires Inv(s) && May(s, e)
    ensures Inv(Step(s, e))
  {
    hide Ordered, Sleeps, Marked, Answers, FailureSeen, Informed, Carried, InOrder, Flushed, WorkerStep, UiStep, WorkerMay, UiMay;
    if IsWorkerEvent(e) {
      OrderedWorkerStep(s, e);
      SleepsWorkerStep(s, e);
      FailureSeenWorkerStep(s, e);
      MarkedWorkerStep(s, e);
      AnswersWorkerStep(s, e);
      InformedWorkerStep(s, e);
      CarriedWorkerStep(s, e);
      InOrderWorkerStep(s, e);
      FlushedWorkerStep(s, e);
    } else {
      OrderedUiStep(s, e);
      SleepsUiStep(s, e);
      FailureSeenUiStep(s, e);
      MarkedUiStep(s, e);
      AnswersUiStep(s, e);
      InformedUiStep(s, e);
      CarriedUiStep(s, e);
      InOrderUiStep(s, e);
      FlushedUiStep(s, e);
    }
  }

  lemma {:induction false} InvRun(s: State, es: seq<Event>)
    requires Inv(s) && CanRun(s, es)
    ensures Inv(Run(s, es))
    decreases |es|
  {
    hide Inv, Step, May;
    if es != [] {
      InvStep(s, es[0]);
      InvRun(Step(s, es[0]), es[1..]);
    }
  }

  lemma InvReachable(es: seq<Event>)
    requires CanRun(INIT, es)
    ensures Inv(Run(INIT, es))
  {
    hide Run, CanRun;
    assert Inv(INIT);
    InvRun(INIT, es);
  }

  // ---------------------------------------------------------------- the results

  /**
   * No lost wake-up: whenever the UI is at poll, output or a status change since its last
   * consume, or a drain request it has not taken, comes with a byte in the pipe. The pipe
   * never holds more than two bytes while the loop runs, so waking never blocks.
   */
  lemma NoLostWakeup(es: seq<Event>)
    requires CanRun(INIT, es)
    ensures var s := Run(INIT, es); var sh := s.shared;
      && (s.ui.pc.Poll? && (sh.wakePending || sh.out != [] || s.h.dirty || sh.drainPending) ==> sh.pipe > 0)
      && (!Left(s.ui.pc) ==> sh.pipe <= 2)
  {
    hide Run, CanRun;
    InvReachable(es);
  }

  /**
   * Each drain request gets one answer and the worker receives exactly that answer: while
   * the loop runs the answers received are the answers given, in order, one for each
   * finished request, and a request in progress is in exactly one of three places.
   */
  lemma OneAnswerPerRequest(es: seq<Event>)
    requires CanRun(INIT, es) && !Run(INIT, es).shared.stop
    ensures var s := Run(INIT, es); var sh, h := s.shared, s.h;
      && (s.worker != Drain ==>
            h.asked == |h.given| && h.got == h.given && !sh.drainPending && !sh.drainAnswered && !s.ui.pc.Answering?)
      && (s.worker == Drain ==>
            h.asked == |h.got| + 1 &&
            (if sh.drainAnswered then !sh.drainPending && !s.ui.pc.Answering? && h.given == h.got + [sh.drainText]
             else h.given == h.got && (sh.drainPending <==> !s.ui.pc.Answering?)))
  {
    hide Run, CanRun;
    InvReachable(es);
  }

  /**
   * First in, first out, exactly once: the messages the worker has started or received,
   * those in transit to it, those queued and the one in hand are the prompts read, in
   * order; and the prompts with the pending input are the bytes read.
   */
  lemma DeliveredInOrder(es: seq<Event>)
    requires CanRun(INIT, es)
    ensures var s := Run(INIT, es);
      && Flatten(s.h.received + Transit(s.shared)) + (Flatten(s.ui.queue) + Held(s.ui.pc)) == s.h.prompts
      && Concat(s.h.prompts) + s.ui.input == s.h.stdin
  {
    hide Run, CanRun;
    InvReachable(es);
  }

  /** After a clean exit stdin has ended, the worker has received all of it and is in no turn, and all output is written. */
  lemma CleanExitIsComplete(es: seq<Event>)
    requires CanRun(INIT, es) && Run(INIT, es).ui.pc == Joined(true)
    ensures var s := Run(INIT, es);
      && s.ui.eof && Flatten(s.h.received) == s.h.prompts && Concat(s.h.prompts) == s.h.stdin
      && s.worker != Turn && s.worker != Drain && s.worker != Starting
      && s.h.shown == s.h.published
  {
    hide Run, CanRun, Flatten, Concat;
    InvReachable(es);
    NothingInTransit(Run(INIT, es));
  }

  /**
   * Nobody sleeps on work. If the worker waits and the UI could block at poll (no byte in
   * the pipe), then nothing is queued, nothing is in transit, no drain is under way, all
   * output is written, and stdin has not ended or input waits for its quiet time.
   */
  lemma NobodySleepsOnWork(es: seq<Event>)
    requires CanRun(INIT, es)
    requires var s := Run(INIT, es); s.shared.waiting && s.ui.pc.Poll? && s.shared.pipe == 0
    ensures var s := Run(INIT, es);
      && s.worker == Loop && s.shared.cmd.None? && s.ui.queue == [] && s.h.shown == s.h.published
      && Flatten(s.h.received) == s.h.prompts
      && s.ui.pc.initialized && (s.ui.eof ==> s.ui.input != [])
  {
    hide Run, CanRun, Flatten, Concat;
    InvReachable(es);
    NothingInTransit(Run(INIT, es));
  }

  // ---------------------------------------------------------------- a failure that the exit status hides

  lemma {:induction false} RunExtends(s: State, es: seq<Event>, e: Event)
    requires CanRun(s, es) && May(Run(s, es), e)
    ensures CanRun(s, es + [e]) && Run(s, es + [e]) == Step(Run(s, es), e)
    decreases |es|
  {
    hide May, Step;
    if es == [] {
      assert [e][1..] == [] && es + [e] == [e];
    } else {
      assert (es + [e])[1..] == es[1..] + [e];
      RunExtends(Step(s, es[0]), es[1..], e);
    }
  }

  lemma Extend(es: seq<Event>, s: State, e: Event) returns (longer: seq<Event>)
    requires CanRun(INIT, es) && Run(INIT, es) == s && May(s, e)
    ensures CanRun(INIT, longer) && Run(INIT, longer) == Step(s, e)
  {
    hide INIT, May, Step;
    RunExtends(INIT, es, e);
    longer := es + [e];
  }

  lemma EmptyRun()
    ensures CanRun(INIT, []) && Run(INIT, []) == INIT
  {
  }

  /** The first input is read as stdin ends. */
  lemma PromptRead(text: bytes) returns (es: seq<Event>, s: State)
    requires text != []
    ensures CanRun(INIT, es) && Run(INIT, es) == s
    ensures s.worker == Loop && s.shared == START.(initialized := true) && s.ui == Ui(Taking(Idle), [], text, true)
  {
    hide Run, CanRun;
    es, s := [], INIT;
    EmptyRun();
    es := Extend(es, s, WInitialized); s := Step(s, WInitialized);
    es := Extend(es, s, UReadInitialized); s := Step(s, UReadInitialized);
    es := Extend(es, s, UReadIdle); s := Step(s, UReadIdle);
    es := Extend(es, s, USubmitQueue); s := Step(s, USubmitQueue);
    es := Extend(es, s, UPollReturns(true)); s := Step(s, UPollReturns(true));
    es := Extend(es, s, URead(text, true)); s := Step(s, URead(text, true));
    es := Extend(es, s, UConsume); s := Step(s, UConsume);
  }

  /** The prompt is submitted, and the UI is back at the top of the loop. */
  lemma PromptSubmitted(text: bytes) returns (es: seq<Event>, s: State)
    requires text != []
    ensures CanRun(INIT, es) && Run(INIT, es) == s
    ensures s.worker == Loop && s.shared == START.(initialized := true, status := Busy, cmd := Some([text]))
    ensures s.ui == Ui(Top, [], [], true)
  {
    hide Run, CanRun;
    es, s := PromptRead(text);
    es := Extend(es, s, UTakeRequest); s := Step(s, UTakeRequest);
    es := Extend(es, s, UJudge(true)); s := Step(s, UJudge(true));
    es := Extend(es, s, UAskIdle); s := Step(s, UAskIdle);
    es := Extend(es, s, UOffer); s := Step(s, UOffer);
    es := Extend(es, s, UClose); s := Step(s, UClose);
  }

  /** The worker is in its turn, and the UI has consumed a status that is not a failure. */
  lemma TurnObserved(text: bytes) returns (es: seq<Event>, s: State)
    requires text != []
    ensures CanRun(INIT, es) && Run(INIT, es) == s
    ensures s.worker == Turn && s.shared == START.(initialized := true, status := Busy) && s.ui == Ui(Taking(Busy), [], [], true)
  {
    hide Run, CanRun;
    es, s := PromptSubmitted(text);
    es := Extend(es, s, WLoop); s := Step(s, WLoop);
    es := Extend(es, s, UReadInitialized); s := Step(s, UReadInitialized);
    es := Extend(es, s, UReadIdle); s := Step(s, UReadIdle);
    es := Extend(es, s, USubmitQueue); s := Step(s, USubmitQueue);
    es := Extend(es, s, WTouch); s := Step(s, WTouch);
    es := Extend(es, s, UPollReturns(true)); s := Step(s, UPollReturns(true));
    es := Extend(es, s, URead([], true)); s := Step(s, URead([], true));
    es := Extend(es, s, UConsume); s := Step(s, UConsume);
  }

  /** The loop can end cleanly although the only turn has just failed. */
  lemma FailureCanBeMissed(text: bytes) returns (es: seq<Event>)
    requires text != []
    ensures CanRun(INIT, es) && Run(INIT, es).ui.pc == Leaving(true) && Run(INIT, es).shared.status == Failed
  {
    hide Run, CanRun;
    var s: State;
    es, s := TurnObserved(text);
    es := Extend(es, s, UTakeRequest); s := Step(s, UTakeRequest);
    es := Extend(es, s, WFinishTurn(Failed)); s := Step(s, WFinishTurn(Failed));
    es := Extend(es, s, UJudge(true)); s := Step(s, UJudge(true));
    es := Extend(es, s, UClose); s := Step(s, UClose);
  }

  /**
   * When the exit status is right: whenever the loop is left, it is left cleanly exactly
   * for a worker that has not failed, if and only if no failure was reported after the
   * last consume of the loop. An unclean exit always has a failed worker.
   */
  lemma ExitStatusExact(es: seq<Event>)
    requires CanRun(INIT, es) && Run(INIT, es).ui.pc.Leaving?
    ensures var s := Run(INIT, es);
      && ((s.ui.pc.clean <==> s.shared.status != Failed) <==> !s.h.late)
      && (!s.ui.pc.clean ==> s.shared.status == Failed) && (s.h.late ==> s.h.dirty)
  {
    hide Run, CanRun;
    InvReachable(es);
  }
}
