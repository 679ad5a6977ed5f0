// The headless loop and the worker thread as one state machine (ds4_agent.c:1073-1105,
// 4115-4153, 8143-8312, 9740-9863). Every step is one mutex section, or one action of the
// UI thread outside the mutex; the threads interleave freely.

module Handoff {
  import opened Bytes
  import opened WorkerSections

  /** Where the worker thread is. In `Loop` and `Drain` it is about to check its condition, or waits for it. */
  datatype WorkerPc = Starting | Loop | Turn | Drain | Stopping | Ended

  /** Where the UI thread is, with the locals it carries there. */
  datatype UiPc =
    | Top
    | Checked(initialized: bool)
    | Decide(initialized: bool, idle: bool)
    | Poll(initialized: bool)
    | Woken(initialized: bool, byWorker: bool)
    | Consuming
    | Taking(seen: Status)
    | Answering(seen: Status)
    | Judging(seen: Status)
    | Asking(prompt: bytes)
    | Offering(prompt: bytes)
    | Closing
    | Leaving(clean: bool)
    | Joining(clean: bool)
    | Joined(clean: bool)

  /** The UI thread: its program counter, prompt queue, input buffer, and whether stdin has ended. */
  datatype Ui = Ui(pc: UiPc, queue: seq<Item>, input: bytes, eof: bool)

  /**
   * What happened so far: bytes read and prompts made of them, output published and
   * written, items accepted by and started in the worker, drain requests made, answers
   * given and answers received. `dirty` says that the worker changed its status since the
   * last consume, `late` that it reported a failure since then.
   */
  datatype History = History(
    stdin: bytes, prompts: seq<bytes>, published: bytes, shown: bytes,
    delivered: seq<Item>, received: seq<Item>,
    asked: nat, given: seq<Option<Item>>, got: seq<Option<Item>>, dirty: bool, late: bool)

  datatype State = State(shared: Shared, worker: WorkerPc, ui: Ui, h: History)

  datatype Event =
    // the worker thread
    | WPublish(text: bytes)
    | WTouch
    | WStartStatus(status: Status)
    | WInitialized
    | WLoop
    | WAskForQueue
    | WDrainStep
    | WFinishTurn(status: Status)
    | WStopped
    | WSpurious
    // the UI thread
    | UReadInitialized
    | UReadIdle
    | USubmitQueue
    | UPollInterrupted
    | UPollReturns(byWorker: bool)
    | URead(text: bytes, eof: bool)
    | UConsume
    | UTakeRequest
    | UAnswer
    | UJudge(ready: bool)
    | UAskIdle
    | UOffer
    | UClose
    | UFlush
    | UStop

  function Flatten(items: seq<Item>): seq<bytes> {
    if items == [] then [] else items[0] + Flatten(items[1..])
  }

  /** `agent_prompt_queue_take_all`: nothing, or one item that carries every message of the queue. */
  function TakeAll(queue: seq<Item>): Option<Item> {
    if queue == [] then None else Some(Flatten(queue))
  }

  function Push(queue: seq<Item>, prompt: bytes): seq<Item> {
    queue + [[prompt]]
  }

  const INIT: State := State(START, Starting, Ui(Top, [], [], false), History([], [], [], [], [], [], 0, [], [], false, false))

  // ---------------------------------------------------------------- the worker's steps

  predicate WorkerMay(s: State, e: Event)
    requires IsWorkerEvent(e)
  {
    match e
    case WPublish(_) => s.worker == Turn || (s.worker == Starting && s.shared.status != Failed)
    case WTouch => s.worker == Turn
    case WStartStatus(st) => s.worker == Starting && s.shared.status != Failed && st != Stopped
    case WInitialized => s.worker == Starting && (s.shared.status == Idle || s.shared.status == Failed)
    case WLoop => s.worker == Loop && !s.shared.waiting
    case WAskForQueue => s.worker == Turn
    case WDrainStep => s.worker == Drain && !s.shared.waiting
    case WFinishTurn(st) => s.worker == Turn && (st == Idle || st == Failed)
    case WStopped => s.worker == Stopping
    case WSpurious => s.shared.waiting
  }

  predicate IsWorkerEvent(e: Event) {
    e.WPublish? || e.WTouch? || e.WStartStatus? || e.WInitialized? || e.WLoop? || e.WAskForQueue? || e.WDrainStep?
    || e.WFinishTurn? || e.WStopped? || e.WSpurious?
  }

  /** The worker leaves a drain with what it was given, if it was given an answer. */
  function LeaveDrain(s: State, before: Shared, after: Shared): State {
    if after.waiting then s.(shared := after, worker := Drain)
    else s.(shared := after, worker := Turn,
            h := if before.drainAnswered
                 then s.h.(got := s.h.got + [before.drainText],
                           received := s.h.received + (if before.drainText.Some? then [before.drainText.value] else []))
                 else s.h)
  }

  function WorkerStep(s: State, e: Event): State
    requires IsWorkerEvent(e) && WorkerMay(s, e)
  {
    var sh := s.shared;
    match e
    case WPublish(text) => s.(shared := Publish(sh, text), h := s.h.(published := s.h.published + text))
    case WTouch => s.(shared := SetStatus(sh, Busy), h := s.h.(dirty := true))
    case WStartStatus(st) => s.(shared := SetStatus(sh, st), h := s.h.(dirty := true, late := s.h.late || st == Failed))
    case WInitialized => s.(shared := Initialized(sh), worker := Loop, h := s.h.(dirty := true))
    case WLoop =>
      if sh.stop then s.(shared := AwaitCommand(sh), worker := Stopping)
      else if sh.cmd.Some? then s.(shared := AwaitCommand(sh), worker := Turn, h := s.h.(received := s.h.received + [sh.cmd.value]))
      else s.(shared := AwaitCommand(sh))
    case WAskForQueue =>
      LeaveDrain(s.(h := s.h.(asked := s.h.asked + 1)), sh.(drainAnswered := false), RequestDrain(sh))
    case WDrainStep => LeaveDrain(s, sh, AwaitDrained(sh))
    case WFinishTurn(st) =>
      s.(shared := SetStatus(sh, st), worker := Loop, h := s.h.(dirty := true, late := s.h.late || st == Failed))
    case WStopped => s.(shared := SetStatus(sh, Stopped), worker := Ended, h := s.h.(dirty := true))
    case WSpurious => s.(shared := sh.(waiting := false))
  }

  // ---------------------------------------------------------------- the UI's steps

  predicate UiMay(s: State, e: Event)
    requires !IsWorkerEvent(e)
  {
    var pc := s.ui.pc;
    match e
    case UReadInitialized => pc == Top
    case UReadIdle => pc.Checked?
    case USubmitQueue => pc.Decide?
    case UPollInterrupted => pc.Poll?
    case UPollReturns(byWorker) =>
      // a byte in the wake pipe, the quiet timeout of pending input, or stdin if it is polled
      pc.Poll? && byWorker == (s.shared.pipe > 0) && (byWorker || s.ui.input != [] || (pc.initialized && !s.ui.eof))
    case URead(text, eof) => pc.Woken? && (text != [] || eof != s.ui.eof ==> pc.initialized && !s.ui.eof)
    case UConsume => pc == Consuming
    case UTakeRequest => pc.Taking?
    case UAnswer => pc.Answering?
    case UJudge(ready) => pc.Judging?
    case UAskIdle => pc.Asking?
    case UOffer => pc.Offering?
    case UClose => pc == Closing
    case UFlush => pc.Leaving?
    case UStop => pc.Joining?
  }

  function Go(s: State, pc: UiPc): State {
    s.(ui := s.ui.(pc := pc))
  }

  /** `worker_submit` of an item that carries the messages of the queue or a prompt. */
  function Accept(s: State, item: Item): State
    requires CanSubmit(s.shared)
  {
    s.(shared := Submit(s.shared, item), h := s.h.(delivered := s.h.delivered + [item]))
  }

  function UiStep(s: State, e: Event): State
    requires !IsWorkerEvent(e) && UiMay(s, e)
  {
    var sh := s.shared;
    var ui := s.ui;
    match e
    case UReadInitialized => Go(s, Checked(sh.initialized))
    case UReadIdle => Go(s, Decide(ui.pc.initialized, IsIdle(sh)))
    case USubmitQueue =>
      var t := Go(s, Poll(ui.pc.initialized));
      if ui.queue == [] || !ui.pc.idle then t
      else if CanSubmit(sh) then Accept(t, Flatten(ui.queue)).(ui := t.ui.(queue := []))
      else t.(ui := t.ui.(queue := [Flatten(ui.queue)]))
    case UPollInterrupted => Go(s, Top)
    case UPollReturns(byWorker) => Go(s, Woken(ui.pc.initialized, byWorker))
    case URead(text, eof) =>
      var pipe := if ui.pc.byWorker then 0 else sh.pipe;
      s.(shared := sh.(pipe := pipe), ui := ui.(pc := Consuming, input := ui.input + text, eof := eof || ui.eof),
         h := s.h.(stdin := s.h.stdin + text))
    case UConsume =>
      Go(s.(shared := Consume(sh), h := s.h.(shown := s.h.shown + sh.out, dirty := false, late := false)), Taking(sh.status))
    case UTakeRequest =>
      Go(s.(shared := TakeRequest(sh)), if sh.drainPending then Answering(ui.pc.seen) else Judging(ui.pc.seen))
    case UAnswer =>
      var item := TakeAll(ui.queue);
      s.(shared := AnswerDrain(sh, item), ui := ui.(pc := Judging(ui.pc.seen), queue := []),
         h := s.h.(given := s.h.given + [item],
                   delivered := s.h.delivered + (if item.Some? then [item.value] else [])))
    case UJudge(ready) =>
      if ui.pc.seen == Failed then Go(s, Leaving(false))
      else if ui.input != [] && (ui.eof || ready)
      then s.(ui := ui.(pc := Asking(ui.input), input := []), h := s.h.(prompts := s.h.prompts + [ui.input]))
      else Go(s, Closing)
    case UAskIdle =>
      if IsIdle(sh) && ui.queue == [] then Go(s, Offering(ui.pc.prompt))
      else s.(ui := ui.(pc := Closing, queue := Push(ui.queue, ui.pc.prompt)))
    case UOffer =>
      if CanSubmit(sh) then Accept(Go(s, Closing), [ui.pc.prompt])
      else s.(ui := ui.(pc := Closing, queue := Push(ui.queue, ui.pc.prompt)))
    case UClose =>
      Go(s, if ui.eof && ui.input == [] && ui.queue == [] && IsIdle(sh) then Leaving(true) else Top)
    case UFlush =>
      Go(s.(shared := Consume(sh), h := s.h.(shown := s.h.shown + sh.out, dirty := false, late := false)), Joining(ui.pc.clean))
    case UStop => Go(s.(shared := Stop(sh)), Joined(ui.pc.clean))
  }

  // ---------------------------------------------------------------- runs

  predicate May(s: State, e: Event) {
    if IsWorkerEvent(e) then WorkerMay(s, e) else UiMay(s, e)
  }

  function Step(s: State, e: Event): State
    requires May(s, e)
  {
    if IsWorkerEvent(e) then WorkerStep(s, e) else UiStep(s, e)
  }

  predicate CanRun(s: State, es: seq<Event>)
    decreases |es|
  {
    es == [] || (May(s, es[0]) && CanRun(Step(s, es[0]), es[1..]))
  }

  /** The state after a run of both threads, interleaved in any way. */
  function Run(s: State, es: seq<Event>): State
    requires CanRun(s, es)
    decreases |es|
  {
    if es == [] then s else Run(Step(s, es[0]), es[1..])
  }
}
