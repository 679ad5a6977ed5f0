// The two threads of the headless agent over the shared worker record: each thread's
// next action, in place, is one step of the hand-off machine (ds4_agent.c:8143-8198,
// 9740-9875). A scheduler that interleaves them in any way makes a run of the machine.

module HandoffThreads {
  import opened Bytes
  import opened WorkerSections
  import opened Handoff
  import opened HandoffSafety

  class Threads {
    const worker: Worker
    var workerPc: WorkerPc
    var uiPc: UiPc
    var queue: seq<Item>
    var input: bytes
    var eof: bool
    ghost var h: History

    ghost function View(): State
      reads this, worker
    {
      State(worker.View(), workerPc, Ui(uiPc, queue, input, eof), h)
    }

    constructor ()
      ensures fresh(worker) && View() == INIT
    {
      worker := new Worker();
      workerPc, uiPc, queue, input, eof := Starting, Top, [], [], false;
      h := INIT.h;
    }

    /** The worker thread, up to the next time it releases the mutex. */
    method WorkerAct(e: Event)
      requires IsWorkerEvent(e) && WorkerMay(View(), e)
      modifies this, worker
      ensures View() == WorkerStep(old(View()), e)
    {
      ghost var after := WorkerStep(View(), e);
      match e {
        case WPublish(text) => worker.PublishText(text);
        case WTouch => worker.ChangeStatus(Busy);
        case WStartStatus(status) => worker.ChangeStatus(status);
        case WInitialized =>
          worker.MarkInitialized();
          workerPc := Loop;
        case WLoop =>
          var cmd := worker.NextCommand();
          if worker.stop { workerPc := Stopping; } else if cmd.Some? { workerPc := Turn; }
        case WAskForQueue =>
          var text := worker.AskForQueue();
          if worker.waiting { workerPc := Drain; }
        case WDrainStep =>
          var text := worker.DrainStep();
          if !worker.waiting { workerPc := Turn; }
        case WFinishTurn(status) =>
          worker.ChangeStatus(status);
          workerPc := Loop;
        case WStopped =>
          worker.ChangeStatus(Stopped);
          workerPc := Ended;
        case WSpurious => worker.WakeSpuriously();
      }
      h := after.h;
    }

    /** The UI thread, up to the next time it releases the mutex. */
    method UiAct(e: Event)
      requires !IsWorkerEvent(e) && UiMay(View(), e)
      modifies this, worker
      ensures View() == UiStep(old(View()), e)
    {
      hide UiStep, UiMay;
      if e.UConsume? || e.UTakeRequest? || e.UAnswer? {
        ConsumeAct(e);
      } else if e.UJudge? || e.UAskIdle? || e.UOffer? {
        PromptAct(e);
      } else if e.UClose? || e.UFlush? || e.UStop? {
        CloseAct(e);
      } else {
        PollAct(e);
      }
    }

    /** The top of the loop, up to the bytes that poll has found. */
    method PollAct(e: Event)
      requires e.UReadInitialized? || e.UReadIdle? || e.USubmitQueue? || e.UPollInterrupted? || e.UPollReturns? || e.URead?
      requires UiMay(View(), e)
      modifies this, worker
      ensures View() == UiStep(old(View()), e)
    {
      ghost var after := UiStep(View(), e);
      match e {
        case UReadInitialized => uiPc := Checked(worker.initialized);
        case UReadIdle =>
          var idle := worker.CheckIdle();
          uiPc := Decide(uiPc.initialized, idle);
        case USubmitQueue => SubmitQueue();
        case UPollInterrupted => uiPc := Top;
        case UPollReturns(byWorker) => uiPc := Woken(uiPc.initialized, byWorker);
        case URead(text, ended) =>
          if uiPc.byWorker { worker.DrainPipe(); }
          input := input + text;
          eof := eof || ended;
          uiPc := Consuming;
      }
      h := after.h;
    }

    /** What the worker has left: its output and status, and a request for the queue. */
    method ConsumeAct(e: Event)
      requires (e.UConsume? || e.UTakeRequest? || e.UAnswer?) && UiMay(View(), e)
      modifies this, worker
      ensures View() == UiStep(old(View()), e)
    {
      ghost var after := UiStep(View(), e);
      match e {
        case UConsume =>
          var text, st := worker.ConsumeOutput();
          uiPc := Taking(st);
        case UTakeRequest =>
          var pending := worker.TakeDrainRequest();
          uiPc := if pending then Answering(uiPc.seen) else Judging(uiPc.seen);
        case UAnswer =>
          var queued := TakeAll(queue);
          queue := [];
          worker.GiveAnswer(queued);
          uiPc := Judging(uiPc.seen);
      }
      h := after.h;
    }

    /** The end of the loop, and what follows it. */
    method CloseAct(e: Event)
      requires (e.UClose? || e.UFlush? || e.UStop?) && UiMay(View(), e)
      modifies this, worker
      ensures View() == UiStep(old(View()), e)
    {
      ghost var after := UiStep(View(), e);
      match e {
        case UClose =>
          var idle := worker.CheckIdle();
          uiPc := if eof && |input| == 0 && |queue| == 0 && idle then Leaving(true) else Top;
        case UFlush =>
          var text, st := worker.ConsumeOutput();
          uiPc := Joining(uiPc.clean);
        case UStop =>
          worker.StopWorker();
          uiPc := Joined(uiPc.clean);
      }
      h := after.h;
    }

    /** A queue that can go to the worker goes as one command, or comes back as one item. */
    method SubmitQueue()
      requires uiPc.Decide?
      modifies this, worker
      ensures View() == UiStep(old(View()), USubmitQueue).(h := old(h))
    {
      if |queue| > 0 && uiPc.idle {
        var queued := Flatten(queue);
        var ok := worker.TrySubmit(queued);
        queue := if ok then [] else [queued];
      }
      uiPc := Poll(uiPc.initialized);
    }

    /** The loop judges the status and the input, and places the prompt it has in hand. */
    method PromptAct(e: Event)
      requires (e.UJudge? || e.UAskIdle? || e.UOffer?) && UiMay(View(), e)
      modifies this, worker
      ensures View() == UiStep(old(View()), e)
    {
      ghost var after := UiStep(View(), e);
      match e {
        case UJudge(ready) =>
          if uiPc.seen == Failed {
            uiPc := Leaving(false);
          } else if |input| > 0 && (eof || ready) {
            uiPc := Asking(input);
            input := [];
          } else {
            uiPc := Closing;
          }
        case UAskIdle =>
          var idle := worker.CheckIdle();
          if idle && |queue| == 0 {
            uiPc := Offering(uiPc.prompt);
          } else {
            queue := Push(queue, uiPc.prompt);
            uiPc := Closing;
          }
        case UOffer =>
          var ok := worker.TrySubmit([uiPc.prompt]);
          if !ok { queue := Push(queue, uiPc.prompt); }
          uiPc := Closing;
      }
      h := after.h;
    }

    /** Any interleaving of the two threads is a run of the machine, so what holds of every run holds of the record. */
    method Schedule(es: seq<Event>)
      requires View() == INIT && CanRun(INIT, es)
      modifies this, worker
      ensures View() == Run(INIT, es) && Inv(View())
    {
      hide May, Step, Inv, INIT, WorkerMay, UiMay, WorkerStep, UiStep;
      assert es[0..] == es;
      for i := 0 to |es|
        invariant CanRun(View(), es[i..]) && Run(View(), es[i..]) == Run(INIT, es)
      {
        assert es[i..][0] == es[i] && es[i..][1..] == es[i + 1..];
        Act(es[i]);
      }
      assert es[|es|..] == [];
      InvReachable(es);
    }

    method Act(e: Event)
      requires May(View(), e)
      modifies this, worker
      ensures View() == Step(old(View()), e)
    {
      hide WorkerMay, UiMay, WorkerStep, UiStep;
      if IsWorkerEvent(e) { WorkerAct(e); } else { UiAct(e); }
    }
  }
}
