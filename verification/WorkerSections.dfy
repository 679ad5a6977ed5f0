// The sections that the UI thread and the worker thread run under the worker's mutex
// (ds4_agent.c:1073-1148, 4115-4153, 8160-8198, 8240-8311). Each function is the effect
// of one section; the class is the shared record, updated in place.

module WorkerSections {
  import opened Bytes

  /** One prompt, or several that the queue joined, in order. */
  type Item = seq<bytes>

  /** Prefill, generation, compaction, draining and saving all count as busy. */
  datatype Status = Idle | Busy | Failed | Stopped

  datatype Shared = Shared(
    wakePending: bool, pipe: nat, out: bytes,
    initialized: bool, status: Status, cmd: Option<Item>, stop: bool,
    drainPending: bool, drainAnswered: bool, drainText: Option<Item>,
    waiting: bool)

  /** Bytes that one read takes from the wake pipe. */
  const PIPE_READ: nat := 128

  const START: Shared := Shared(false, 0, [], false, Idle, None, false, false, false, None, false)

  function Wake(s: Shared): Shared {
    if s.wakePending then s else s.(wakePending := true, pipe := s.pipe + 1)
  }

  /** Only the worker thread ever waits on the condition variable. */
  function Signal(s: Shared): Shared {
    s.(waiting := false)
  }

  function Publish(s: Shared, text: bytes): Shared {
    if text == [] then s else Wake(s.(out := s.out + text))
  }

  function SetStatus(s: Shared, status: Status): Shared {
    Wake(s.(status := status))
  }

  function Initialized(s: Shared): Shared {
    Wake(s.(initialized := true))
  }

  predicate CanSubmit(s: Shared) {
    s.initialized && s.status == Idle && s.cmd.None?
  }

  function Submit(s: Shared, item: Item): Shared {
    if CanSubmit(s) then Signal(s.(cmd := Some(item), status := Busy)) else s
  }

  predicate IsIdle(s: Shared) {
    s.initialized && (s.status == Idle || s.status == Failed)
  }

  function Consume(s: Shared): Shared {
    s.(out := [], wakePending := false)
  }

  /** The worker's main wait: it sleeps, takes a command, or sees that it must stop. */
  function AwaitCommand(s: Shared): Shared {
    if s.stop then s
    else if s.cmd.Some? then s.(cmd := None)
    else s.(waiting := true)
  }

  /** The end of a drain: the worker takes the text and clears the request. */
  function TakeDrained(s: Shared): Shared {
    s.(drainText := None, drainPending := false, drainAnswered := false)
  }

  /** The check of the wait for a drain's answer. */
  function AwaitDrained(s: Shared): Shared {
    if s.stop || s.drainAnswered then TakeDrained(s) else s.(waiting := true)
  }

  function RequestDrain(s: Shared): Shared {
    AwaitDrained(Signal(Wake(s.(drainPending := true, drainAnswered := false, drainText := None))))
  }

  function TakeRequest(s: Shared): Shared {
    s.(drainPending := false)
  }

  function AnswerDrain(s: Shared, text: Option<Item>): Shared {
    Wake(Signal(s.(drainText := text, drainAnswered := true)))
  }

  function Stop(s: Shared): Shared {
    Signal(s.(stop := true))
  }

  class Worker {
    var wakePending: bool
    var pipe: nat
    var out: bytes
    var initialized: bool
    var status: Status
    var cmd: Option<Item>
    var stop: bool
    var drainPending: bool
    var drainAnswered: bool
    var drainText: Option<Item>
    var waiting: bool

    function View(): Shared
      reads this
    {
      Shared(wakePending, pipe, out, initialized, status, cmd, stop, drainPending, drainAnswered, drainText, waiting)
    }

    constructor ()
      ensures View() == START
    {
      wakePending, pipe, out := false, 0, [];
      initialized, status, cmd, stop := false, Idle, None, false;
      drainPending, drainAnswered, drainText := false, false, None;
      waiting := false;
    }

    /** `agent_wake_locked`. */
    method WakeLocked()
      modifies this
      ensures View() == Wake(old(View()))
    {
      if wakePending { return; }
      wakePending := true;
      pipe := pipe + 1;
    }

    /** `agent_publish`. */
    method PublishText(text: bytes)
      modifies this
      ensures View() == Publish(old(View()), text)
    {
      if |text| == 0 { return; }
      out := out + text;
      WakeLocked();
    }

    /** `agent_set_status` and `agent_set_error`. */
    method ChangeStatus(to: Status)
      modifies this
      ensures View() == SetStatus(old(View()), to)
    {
      status := to;
      WakeLocked();
    }

    /** The end of the worker's start-up. */
    method MarkInitialized()
      modifies this
      ensures View() == Initialized(old(View()))
    {
      initialized := true;
      WakeLocked();
    }

    /** `worker_is_idle`. */
    method CheckIdle() returns (idle: bool)
      ensures idle == IsIdle(View())
    {
      idle := initialized && (status == Idle || status == Failed);
    }

    /** `drain_wake_fd`: every byte of the pipe is read. */
    method DrainPipe()
      modifies this
      ensures View() == old(View()).(pipe := 0)
    {
      while pipe > 0
        invariant View() == old(View()).(pipe := pipe)
      {
        pipe := if pipe > PIPE_READ then pipe - PIPE_READ else 0;
      }
    }

    /** A wake-up of the wait without a signal. */
    method WakeSpuriously()
      modifies this
      ensures View() == old(View()).(waiting := false)
    {
      waiting := false;
    }

    /** `worker_submit`. */
    method TrySubmit(item: Item) returns (ok: bool)
      modifies this
      ensures ok == CanSubmit(old(View())) && View() == Submit(old(View()), item)
    {
      ok := initialized && status == Idle && cmd.None?;
      if ok {
        cmd := Some(item);
        status := Busy;
        waiting := false;
      }
    }

    /** `worker_consume`: the output so far and the status, in one section. */
    method ConsumeOutput() returns (text: bytes, st: Status)
      modifies this
      ensures text == old(out) && st == old(status) && View() == Consume(old(View()))
    {
      text := out;
      out := [];
      st := status;
      wakePending := false;
    }

    /** One turn of the main wait of `worker_main`. */
    method NextCommand() returns (item: Option<Item>)
      modifies this
      ensures View() == AwaitCommand(old(View()))
      ensures item == if old(stop) then None else old(cmd)
    {
      if stop { return None; }
      if cmd.None? {
        waiting := true;
        return None;
      }
      item := cmd;
      cmd := None;
    }

    /** The end of `worker_request_queued_user_drain`, at each wake-up. */
    method DrainStep() returns (text: Option<Item>)
      modifies this
      ensures View() == AwaitDrained(old(View()))
      ensures text == if old(stop || drainAnswered) then old(drainText) else None
    {
      if !stop && !drainAnswered {
        waiting := true;
        return None;
      }
      text := drainText;
      drainText := None;
      drainPending := false;
      drainAnswered := false;
    }

    /** `worker_request_queued_user_drain`, up to its first wait. */
    method AskForQueue() returns (text: Option<Item>)
      modifies this
      ensures View() == RequestDrain(old(View())) && text.None?
    {
      drainPending := true;
      drainAnswered := false;
      drainText := None;
      WakeLocked();
      waiting := false;
      text := DrainStep();
    }

    /** `worker_take_queued_user_drain_request`. */
    method TakeDrainRequest() returns (pending: bool)
      modifies this
      ensures pending == old(drainPending) && View() == TakeRequest(old(View()))
    {
      pending := drainPending;
      if pending { drainPending := false; }
    }

    /** `worker_answer_queued_user_drain`. */
    method GiveAnswer(text: Option<Item>)
      modifies this
      ensures View() == AnswerDrain(old(View()), text)
    {
      drainText := text;
      drainAnswered := true;
      waiting := false;
      WakeLocked();
    }

    /** `worker_stop`. */
    method StopWorker()
      modifies this
      ensures View() == Stop(old(View()))
    {
      stop := true;
      waiting := false;
    }
  }
}
