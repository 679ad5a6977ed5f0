# Verified models of the ds4 front ends

ds4 runs a local language model; its agent, evaluator and command line wrap the engine
with parsers, printers and protocols of their own. This project models the parts of those
front ends whose correctness spans many calls, and proves what they are for.

The project is one Dafny module per component, verified together with
`dafny verify dfyconfig.toml`. Code that updates a record in place is a class with the
record's fields, and each method is proved against a function of the old state; what the
program promises is then proved about those functions.

- **Tool calls.** `DsmlTags`, `DsmlParse`, `DsmlStream` and `DsmlParser` are the DSML parser,
  which re-parses its buffer after every byte; `DsmlRoundTrip` prints calls and reads them
  back. `TagSplitter`, `StreamDisplay` and `StreamRenderer` are the display in front of it,
  which splits thinking from answer and holds back partial markers; `PlainSplitters` holds
  the two simpler copies. `DisplayShows` says what the terminal gets, by a reading of the
  whole text that looks ahead instead of holding bytes back. `ToolRound` is one generation round and its decision to run tools;
  `ToolText`, `Openers`, `ToolOrigin`, `ToolOnce` and `ToolTail` relate the tools that run to
  the text of the answer.
- **Hand-off.** `WorkerSections`, `Handoff`, `HandoffSafety`, `HandoffProgress`,
  `HandoffThreads` and `PromptQueue` are the two threads of the headless agent: every mutex
  section is one step, and the threads interleave freely.
- **Files.** `TextLines`, `LineShift`, `AnchoredEdit` and `Paging` are line splitting, the
  edit tool with the line numbers it reports, and the paged reader.
- **Evaluator.** `TraceWriter`, `TraceScanner`, `TraceRoundTrip`, `TraceFields` and `Regrade`
  are the trace file, its reader and regrading; `ThinkBudget` is the controller that keeps room for an
  answer.
- **Context and records.** `Compaction` is the transaction that shortens a conversation,
  `TailCapture` the ring buffer of command output, `JsonText` the JSON writer, and
  `Lifecycle` the phases of a request.

## What the proofs say about the code

Some promises hold only under a condition that the code does not check. Each is stated with
its exact condition:

- A parameter name that ends in `string=` hides the parameter's own `string` flag, because
  attributes are searched for inside the name. A document reads back if and only if no
  string argument has such a name and names and values fit the syntax (`DsmlRoundTrip.RoundTrip`).
- The lines behind an edit move by the reported delta, except that the first of them may
  melt into the edited text. It does exactly when no line may start there: the edit leaves an
  unterminated line or joins a CR to its LF (`LineShift.LineShiftExact`).
- Complete, displayed tool calls are silently dropped when the batch of tokens that completes
  them also holds the end token, or when they are completed on the last allowed token: the
  batch loop stops before the finished parser is looked at, and the turn ends idle. They run
  if and only if neither is the case (`ToolText.PrintedCallsRun`,
  `ToolText.EndTokenDropsCalls`, `ToolText.LimitDropsCalls`).
- Tools run once for each opener that starts a call. When one batch of tokens holds the end
  of a stanza, a second opener and one byte more, the parser reads the first stanza again and
  all its calls run twice (`ToolTail.SecondOpenerRunsTwice`). In every round that runs tools
  they run once exactly when no opener is accepted behind the end of the first stanza, or
  there are none (`ToolOnce.RunOnceExactly`).
- Behind malformed markup, a marker outside calls or a broken call, nothing but think tags
  reaches the terminal any more; every other byte of an answer is shown, dropped as a blank
  right behind `</think>`, or part of a tag or a call (`DisplayShows.DisplayShowsText`,
  `DisplayShows.LostIsReported`).
- Right behind `</think>` blanks are dropped even between the bytes of an opener, so an opener
  with blanks in it is accepted there, and nowhere else (`ToolOrigin.ToolsComeFromText`).
- The forced closing tag is searched for in a C string. After a NUL byte in the thinking text it
  is never seen, and tag and answer prefix are forced over and over instead of leaving room for
  an answer; thinking is closed by the tag exactly when the text holds no NUL
  (`ThinkBudget.AnswerReserve`, `ThinkBudget.ForcedTagCloses`,
  `ThinkBudget.NulSpendsTheReserve`).
- A page whose start plus count exceeds a 32-bit `int` shows nothing and drops the rest of
  the file; a read with its `more` calls shows every line once exactly when no page does
  (`Paging.PageExact`, `Paging.PagingCoversOnce`).
- Prompts queued while the worker is busy are joined through a 128 KiB buffer. A message comes
  through whole exactly when it ends within the first 128 KiB of the joined text
  (`PromptQueue.CutCarries`).
- An edit is undone by the opposite edit exactly when the opposite edit succeeds at all and the
  text replaced was the old text as written, which it always is without an `[upto]` in it.
  Without an `[upto]` in the new text the opposite edit succeeds exactly when that text is not
  empty and occurs once in the result (`AnchoredEdit.EditUndoes`).
- A choice that holds line feeds comes out as several lines of metadata. A trace with such
  cases is regraded like any other, as long as no such line starts like a case header or an
  output block (`Regrade.RegradeIsStable`).
- The headless loop can leave with status 0 although the last turn failed. Its exit status is
  right exactly when no failure was reported after its last consume
  (`HandoffSafety.FailureCanBeMissed`, `HandoffSafety.ExitStatusExact`).
- A request record that enters a terminal phase by a plain `ds4_protocol_transition` is not
  marked terminal and goes on taking progress. The mark is right at the end of a run exactly
  when no plain transition into a terminal phase succeeded (`Lifecycle.FlagIsRightExactly`,
  `Lifecycle.UndisciplinedEndStillMoves`).
- Plain transitions between decoding and recovery can go on without bound; every run has at
  most six phase changes and two more for each plain entry into recovery
  (`Lifecycle.ChangesAreBounded`, `Lifecycle.UndisciplinedNeverEnds`).

## Model

| member | source | states |
|---|---|---|
| DsmlTags.CloseTagExact | ds4_agent.c:1361-1374 | a closing tag is recognised exactly when the text starts with a word of the grammar `</｜DSML｜name blank* ｜? blank* >`, with that length |
| DsmlTags.CloseTagStable | ds4_agent.c:1361-1374 | more input never changes a closing tag already found, nor completes one past a `>` |
| DsmlTags.CloseTailExact | ds4_agent.c:1376-1406 | the streamed recogniser accepts exactly the prefixes of parameter close tags, is complete exactly on whole ones, and agrees with the batch recogniser |
| DsmlParse.StepStable | ds4_agent.c:1445-1525 | a parser step that did not have to wait does the same with any input behind it |
| DsmlParse.ParseResumes | ds4_agent.c:1445-1525 | a parse that had to wait goes on as if it had seen the longer buffer from the start |
| DsmlParse.BrokenTagIsTold | ds4_agent.c:1469-1521 | an opening tag breaks the call exactly if it is neither invoke nor parameter or has no name; each case leaves its own message, the first 80 bytes of an unknown tag included, and the calls so far |
| DsmlStream.StreamingIsBatch | ds4_agent.c:1433-1560 | for every chunking a fresh parser ends with the state, calls and error of one parse of the text from its first opening marker |
| DsmlStream.BatchResumes | ds4_agent.c:1535-1560 | text behind the marker is parsed on from where the parse stood, and a final state stays |
| DsmlStream.ClosePrefixExact | ds4_agent.c:1408-1431 | the close-prefix flag is on exactly while the value ends in an unfinished close tag of at most 64 bytes that shows its marker |
| DsmlStream.FlagBeforeGt | ds4_agent.c:1408-1431 | the flag is on just before the final `>` of every close tag of at most 65 bytes |
| DsmlParser.CloseTagAt | ds4_agent.c:1361-1374 | the scanning code finds the closing tag that the grammar's recogniser finds |
| DsmlParser.ParameterCloseTail | ds4_agent.c:1380-1406 | the scanning code answers exactly: a prefix of a close tag, and complete on a whole one |
| DsmlParser.FindCloseTag | ds4_agent.c:1433-1443 | the first parameter close tag before any NUL is found |
| DsmlParser.ParamClosePrefix | ds4_agent.c:1408-1431 | the backward scan computes the close-prefix flag |
| DsmlParser.Parser.Reset | ds4_agent.c:1309-1321 | a reset parser is a fresh one |
| DsmlParser.Parser.SetError | ds4_agent.c:1347-1350 | the phase becomes failed with the message, and nothing else changes |
| DsmlParser.Parser.PushCall | ds4_agent.c:1291-1299 | the draft call joins the calls if it has a name, and the draft is cleared |
| DsmlParser.Parser.OpenTag | ds4_agent.c:1492-1521 | an opening tag starts a call or a parameter, or fails with the error of its case |
| DsmlParser.Parser.CloseParam | ds4_agent.c:1451-1467 | a finished value becomes an argument of the call, or the parser waits |
| DsmlParser.Parser.ParseTag | ds4_agent.c:1469-1521 | one structural tag is handled, or the parser waits |
| DsmlParser.Parser.Parse | ds4_agent.c:1449-1525 | the loop over the buffer computes the batch parse from the parser's state |
| DsmlParser.Parser.Start | ds4_agent.c:1527-1533 | the canonical marker is seeded and parsing starts behind it |
| DsmlParser.Parser.Feed | ds4_agent.c:1535-1560 | feeding a fragment updates the whole record as the byte-wise specification does |
| DsmlRoundTrip.PrintThenFeed | ds4_agent.c:721-728 | calls printed with any blanks and tolerated closing tags, in any surroundings and chunking, end the parser with exactly those calls |
| DsmlRoundTrip.RoundTrip | ds4_agent.c:1336-1525 | a well-spaced document reads back its calls and flags if and only if names and values fit the syntax and no string argument's name ends in `string=` |
| TagSplitter.SplitInvariance | ds4_agent.c:3421-3487 | any cutting of the text into calls followed by a finishing call ends as one finished call on the whole text, for whatever the splitter drives |
| TagSplitter.HeldIsPartial | ds4_agent.c:3463-3472 | what a call holds back is a proper prefix of one of the two think tags |
| TagSplitter.ChunksAreOne | ds4_agent.c:3421-3487 | unfinished calls, chunk by chunk, are one unfinished call on the whole text, in state and held bytes |
| TagSplitter.TokensFaithful | ds4_eval.c:2115-2149 | cutting a text into tags and bytes loses no byte and overlooks no tag |
| TagSplitter.DriveIsApply | ds4_eval.c:2115-2149 | a machine that never owns the text sees exactly the tokens of the whole text |
| PlainSplitters.EvalStream.AppendTokenText | ds4_eval.c:2108-2150 | one call drives the evaluation stream and keeps exactly the held bytes |
| PlainSplitters.EvalStreamShows | ds4_eval.c:2103-2150 | however the answer is cut, every byte is shown once, in order, with the style of its side of the think tags |
| PlainSplitters.TokenPrinter.PutChar | ds4_cli.c:327-331 | a byte is printed, in grey while thinking |
| PlainSplitters.TokenPrinter.Process | ds4_cli.c:333-377 | one call drives the printer and keeps exactly the held bytes |
| PlainSplitters.PrinterOutput | ds4_cli.c:304-377 | however the answer is cut the printer ends the same; without colours it prints the text without its tags and one break after each thinking part; with colours, and no escape byte in the text, a terminal shows the same bytes, grey exactly where they are thinking |
| PlainSplitters.WrittenPaints | ds4_cli.c:313-377 | the colour codes written for the tokens of an answer paint its thinking bytes grey and no others |
| PlainSplitters.CellsArePrinted | ds4_cli.c:333-377 | the bytes shown with colours are those printed without |
| StreamDisplay.DisplaySplitInvariance | ds4_agent.c:3349-3508 | however the text is cut into calls, a finishing call leaves parser, calls, flags and the whole sequence of terminal events as one finished call does |
| StreamDisplay.OpenersCarryMarkers | ds4_agent.c:3267-3294 | every accepted opener contains a marker the detector watches for |
| StreamDisplay.MarkerInThinkingIsCaught | ds4_agent.c:3115-3344 | from any thinking state a marker before the next `</think>` leaves a state in which no tool can run, whatever follows |
| StreamDisplay.HeldByteStartsNothing | ds4_agent.c:3349-3414 | bytes of a held partial tag cannot complete an opener |
| DisplayShows.DisplayShowsText | ds4_agent.c:3098-3508 | however an answer is cut, the terminal gets exactly the events of the parts of its text, in order: each byte is shown once, a blank dropped behind `</think>`, part of a tag, an opener or a call, or lost behind malformed markup; think events stand at the tags, tool bytes are the bytes of the calls, and each report stands where its cause ends |
| DisplayShows.PartsSpell | ds4_agent.c:3098-3508 | the parts of every text spell the text: no byte is read twice or passed over |
| DisplayShows.LostIsReported | ds4_agent.c:3115-3234 | a byte is lost only behind a part at which malformed markup was reported |
| DisplayShows.OrdinaryAnswerShown | ds4_agent.c:3349-3508 | of thinking, `</think>`, prose and printed calls, in any cutting, the terminal gets the thinking byte for byte, the end of it, the prose without the blanks dropped behind the tag, and the calls byte for byte behind their opener, begun and finished, and nothing else |
| StreamRenderer.Renderer.Detect | ds4_agent.c:3307-3327 | the marker detector keeps the last 32 bytes and reports a marker at their end |
| StreamRenderer.Renderer.FeedDsmlByte | ds4_agent.c:3196-3234 | a byte of a call goes to the parser and to the terminal, and a finished or broken stanza ends the call |
| StreamRenderer.Renderer.StartDsml | ds4_agent.c:3239-3252 | a call starts with the canonical marker, ignored if thinking |
| StreamRenderer.Renderer.NormalByte | ds4_agent.c:3349-3414 | a byte outside a call is noted, dropped in the gap after thinking, held, or shown, as specified; `DisplayShows` says what that shows |
| StreamRenderer.Renderer.Fragment | ds4_agent.c:3446-3487 | the loop over pending and new bytes is the think-tag splitter on the display |
| StreamRenderer.Renderer.Text | ds4_agent.c:3421-3508 | one call, finished or not, updates the whole stream record as specified; `DisplayShows` says what a whole answer shows |
| ToolRound.ThinkingNeverRunsTools | ds4_agent.c:7810-7974 | if a marker follows a thinking state before the next `</think>`, the round runs no tool, however tokens are batched and whatever follows |
| ToolRound.MarkerBeforeFirstClose | ds4_agent.c:7810-7974 | in a thinking answer a marker before the first `</think>` rules every tool out |
| ToolRound.ToolsRunExactly | ds4_agent.c:7918-7974 | tools run if and only if a stanza finished in time, nobody interrupted, and no call in thinking or malformed markup was seen; the calls are the stanza's |
| ToolRound.OutcomeExactly | ds4_agent.c:7918-7974 | a failed evaluation and then an interrupt come first; a call in thinking, malformed markup and an unfinished stanza each give their own error, in this order; a finished stanza runs its calls; anything else is idle |
| ToolRound.RoundEnds | ds4_agent.c:7806-7916 | an evaluation that fails breaks the round; at an interrupt, a stop or the limit the round comes to what it would have come to if nothing more had been asked for, whatever would have followed |
| ToolRound.RecordBatch | ds4_agent.c:7537-7558 | the tokens of one evaluation are recorded and streamed one by one, up to the end token or the limit |
| ToolRound.Conclude | ds4_agent.c:7918-7974 | the finished text is decided on as specified |
| ToolRound.RunRound | ds4_agent.c:7806-7974 | the decode loop with the streaming object computes the round |
| ToolText.PrintedCallsRun | ds4_agent.c:7806-7974 | an answer of ordinary text (thinking without markers, `</think>`, prose without markers) and then printed calls, in any cutting into tokens and batches and with anything decoded later, runs exactly those calls if and only if the batch that completes it holds no end token and the answer has fewer tokens than the limit; with the end token below the limit, or exactly at the limit, the turn ends idle |
| ToolText.AnswerOutcome | ds4_agent.c:7806-7974 | the same, when the last batch goes on behind the calls with any text that leaves some calls to be run |
| ToolText.EndTokenDropsCalls | ds4_agent.c:7858-7893 | printed calls and the end token in one batch end the turn idle |
| ToolText.LimitDropsCalls | ds4_agent.c:7858-7893 | printed calls completed on the last allowed token end the turn idle |
| ToolText.AnswerLeads | ds4_agent.c:3349-3508 | at every point inside such an answer nothing is decided, and at its end the printed calls wait to be run |
| ToolText.OpenerIsMarked | ds4_agent.c:3267-3294 | a text that ends in an opener holds a marker |
| Openers.ReopensIs | ds4_agent.c:3267-3414 | the display accepts an opener in a text, byte by byte, if and only if one stands in it, with blanks in it only right behind `</think>` |
| ToolOrigin.ToolsComeFromText | ds4_agent.c:7806-7974 | if a round runs tools, its text holds an accepted opener, the first one in it, with blanks in it only right behind `</think>`; the text behind it parses to the end of a stanza, and the tools are the calls of that parse, once for each opener that started a call |
| ToolOrigin.FirstIsUnique | ds4_agent.c:3349-3414 | the first accepted opener determines the stanza behind it |
| ToolOrigin.FedAgain | ds4_agent.c:1527-1560 | the first byte behind a later opener makes the parser read its first stanza again and finish with the calls once more |
| ToolOrigin.DriveExplained | ds4_agent.c:3421-3508 | every state of the display that can still run tools is explained by the text behind it: nothing started yet, or an opener and the parse of what follows |
| ToolOnce.RunOnceExactly | ds4_agent.c:7806-7974 | in every round that runs tools the first accepted opener and the end of the stanza behind it are at one place; the calls of that stanza run once if and only if no opener is accepted behind its end, or there are none |
| ToolTail.QuietLeaves | ds4_agent.c:3349-3508 | behind finished calls, text without tags and markers, set off by a blank, leaves exactly those calls to be run, in any state the answer can end in |
| ToolTail.CallsRunOnceExactly | ds4_agent.c:7806-7974 | printed calls followed in their last batch by quiet text, and perhaps by another opener and a byte, run as printed if and only if no such opener and byte follow or there are no calls; otherwise every call runs twice |
| ToolTail.SecondOpenerRunsTwice | ds4_agent.c:7848-7896 | a printed document, an opener and one more byte in one batch run every call twice |
| WorkerSections.Worker.WakeLocked | ds4_agent.c:1076-1082 | a wake marks the worker and writes one byte, unless already marked |
| WorkerSections.Worker.PublishText | ds4_agent.c:1086-1105 | output is appended and the UI is woken, in one section |
| WorkerSections.Worker.ChangeStatus | ds4_agent.c:1129-1148 | the status changes and the UI is woken, in one section |
| WorkerSections.Worker.MarkInitialized | ds4_agent.c:8158-8161 | the end of start-up is marked and the UI is woken, in one section |
| WorkerSections.Worker.CheckIdle | ds4_agent.c:8323-8330 | idle means initialised and idle or failed |
| WorkerSections.Worker.DrainPipe | ds4_agent.c:8228-8236 | the read loop leaves no byte in the wake pipe and touches nothing else |
| WorkerSections.Worker.TrySubmit | ds4_agent.c:8240-8261 | a command is accepted only when initialised, idle and free; acceptance makes the worker busy and signals it |
| WorkerSections.Worker.ConsumeOutput | ds4_agent.c:8297-8312 | output and status are taken and the mark is cleared, in one section |
| WorkerSections.Worker.NextCommand | ds4_agent.c:8165-8188 | the worker sleeps only without command and stop, and takes the command otherwise |
| WorkerSections.Worker.AskForQueue | ds4_agent.c:4119-4128 | a drain request clears the last answer, wakes the UI and waits |
| WorkerSections.Worker.DrainStep | ds4_agent.c:4127-4135 | at each wake-up the answer is taken and the request cleared, or the worker waits on |
| WorkerSections.Worker.TakeDrainRequest | ds4_agent.c:4137-4143 | the UI takes a pending request once |
| WorkerSections.Worker.GiveAnswer | ds4_agent.c:4145-4153 | an answer is stored, signalled and marked |
| WorkerSections.Worker.StopWorker | ds4_agent.c:8288-8293 | stop is set and signalled |
| HandoffSafety.InvStep | ds4_agent.c:9740-9863 | every step of either thread keeps the nine invariants of the hand-off |
| HandoffSafety.NoLostWakeup | ds4_agent.c:1073-1105 | in every reachable state, at poll, unseen output, a status change or a drain request comes with a byte in the pipe; the pipe never holds more than two bytes |
| HandoffSafety.OneAnswerPerRequest | ds4_agent.c:4119-4153 | in every run each drain request gets exactly one answer, which the worker receives, and a request in progress is in one of three places |
| HandoffSafety.DeliveredInOrder | ds4_agent.c:9740-9863 | in every reachable state the messages received, in transit, queued and in hand are the prompts read, in order, each once; prompts and pending input are the bytes read |
| HandoffSafety.CleanExitIsComplete | ds4_agent.c:9858-9875 | after a clean exit all of stdin has been received, the worker is in no turn, and all published output is written |
| HandoffSafety.NobodySleepsOnWork | ds4_agent.c:9740-9802 | if the worker waits and the UI can block at poll, nothing is queued, in transit or unwritten, and stdin has not ended or input waits for its quiet time |
| HandoffSafety.FailureCanBeMissed | ds4_agent.c:9817-9861 | a run in which the loop ends cleanly although the turn has failed |
| HandoffSafety.ExitStatusExact | ds4_agent.c:9817-9861 | whenever the loop is left, it is left cleanly exactly for a worker that has not failed if and only if no failure was reported after the last consume; an unclean exit always has a failed worker |
| HandoffProgress.UiGoesOn | ds4_agent.c:9740-9863 | the UI can always take a step, except at poll with no byte, no pending input and no stdin to read |
| HandoffProgress.WorkerGoesOn | ds4_agent.c:8143-8198 | a worker with a command starts it as its next step, and one told to stop ends |
| HandoffProgress.InputGoesOut | ds4_agent.c:9838-9857 | from every reachable state at the judgement with input, no failure seen and the quiet time over or stdin ended, the input is the next prompt after one step of the UI and delivered or queued after three, whatever the worker does in between |
| HandoffProgress.FreshInputWaits | ds4_agent.c:9845-9847 | before the quiet time is over, with stdin open, input and prompts stay as they are |
| HandoffProgress.IdleWorkerGetsPrompt | ds4_agent.c:9845-9857 | a prompt in hand with nothing queued goes to an idle worker within two steps of the UI, as one command |
| HandoffProgress.IdleWorkerGetsQueue | ds4_agent.c:9765-9774 | a queue that meets an idle worker is submitted whole, as one command, within two steps of the UI |
| HandoffProgress.DrainGetsQueue | ds4_agent.c:9825-9836 | a drain request is answered within two steps of the UI with all that is queued, or with nothing if nothing is |
| HandoffProgress.DoneLoopEnds | ds4_agent.c:9858-9875 | with stdin ended, nothing pending and the worker idle, the UI has left cleanly and joined after three steps |
| HandoffProgress.FailedLoopEnds | ds4_agent.c:9838-9875 | a failure that the UI has seen ends the loop uncleanly after three steps |
| HandoffThreads.Threads.WorkerAct | ds4_agent.c:8145-8198 | the worker thread's next action on the shared record is its step of the machine |
| HandoffThreads.Threads.UiAct | ds4_agent.c:9740-9875 | the UI thread's next action on the shared record is its step of the machine |
| HandoffThreads.Threads.SubmitQueue | ds4_agent.c:9765-9774 | a queue goes to the worker as one command, or comes back as one item |
| HandoffThreads.Threads.Schedule | ds4_agent.c:9740-9875 | any interleaving of the two threads on the record is a run of the machine and keeps its invariants |
| PromptQueue.JoinedCarries | ds4_agent.c:8547-8562 | a joined text holds every queued message byte for byte behind its own heading, in order and without overlap |
| PromptQueue.CutCarries | ds4_agent.c:8547-8562 | message i comes through whole if and only if it ends within the first 128 KiB of the joined text; past that the last message never does |
| PromptQueue.HandedOver | ds4_agent.c:8547-8562 | nothing is handed over exactly for an empty queue, the only message goes by itself, and of several each stands behind its heading as far as the buffer reaches |
| PromptQueue.HeadingTellsNumber | ds4_agent.c:8552-8558 | a heading is one line from which the number of its message, counted from 1, reads back |
| PromptQueue.TextBuffer.Append | ds4_agent.c:3565-3583 | the buffer holds the first 128 KiB of everything appended, and says whether something was cut |
| PromptQueue.Queue.Reserve | ds4_agent.c:8521-8525 | the array doubles when it is full, and keeps its prompts |
| PromptQueue.Queue.Push | ds4_agent.c:8521-8527 | in the growable array the prompts stay as they are and the new one is behind them |
| PromptQueue.Queue.Pop | ds4_agent.c:8529-8535 | the first prompt is taken and the shift keeps the others in order, or there is none |
| PromptQueue.Queue.PushFront | ds4_agent.c:8537-8545 | the shift keeps the prompts in order behind the new one |
| PromptQueue.Queue.TakeAll | ds4_agent.c:8547-8562 | the queue is emptied into nothing, the only prompt, or the joined text as far as its buffer holds it |
| TextLines.LinesExact | ds4_agent.c:5510-5528 | the lines of a text are the one well-formed way to cut it: terminator-free contents, LF, CR or CRLF, no empty last line |
| TextLines.LinesMerge | ds4_agent.c:5510-5528 | where a line may not start, joining two texts melts exactly one line of each into one |
| LineShift.SplitLines | ds4_agent.c:5510-5528 | the loop returns the spans of those lines |
| LineShift.LineForOffset | ds4_agent.c:5576-5582 | the loop returns the number of the line that holds the byte, or the last line |
| LineShift.OldNewLineEffect | ds4_agent.c:5584-5605 | the reported first line, last line and delta are those of the two texts |
| LineShift.LinesBeforeEdit | ds4_agent.c:5576-5605 | every line before the reported first one keeps its number and content |
| LineShift.TouchedExactly | ds4_agent.c:5576-5605 | the reported first and last line are the ones that hold the first and the last byte touched, and no others; delta is the difference of the line counts |
| LineShift.LineShiftExact | ds4_agent.c:6240-6272 | every old line behind the next one is line k + delta, unchanged, and the next one is exactly when a line may start there |
| LineShift.LineShiftGuard | ds4_agent.c:6240-6272 | all lines behind the edit move by delta if a byte of the last touched line survives or the insert ends in LF |
| LineShift.LineShiftCounterexample | ds4_agent.c:6240-6272 | without that the report can be wrong |
| AnchoredEdit.MemMem | ds4_agent.c:5917-5927 | the first occurrence, or none if there is none |
| AnchoredEdit.FindUniqueAfter | ds4_agent.c:5929-5991 | an occurrence is returned exactly when it is the only one from the start on, overlaps counted |
| AnchoredEdit.FindOldSpan | ds4_agent.c:6094-6143 | a span is found exactly when one obeys the anchor rules, and it is that span |
| AnchoredEdit.AnchoredText | ds4_agent.c:6094-6143 | an anchored old text is its head, the one `[upto]`, line breaks, and a tail that is not blank and starts with no line break |
| AnchoredEdit.AnchorsAreRead | ds4_agent.c:6108-6126 | such a text is read as that head and that tail, whatever line breaks follow the marker |
| AnchoredEdit.AnchoredSpanExact | ds4_agent.c:6094-6143 | an anchored span is valid exactly when its head is unique and it is the only span that starts with the head and ends with the tail behind it |
| AnchoredEdit.EditFile | ds4_agent.c:6240-6319 | an edit has exactly the result that splices the new text at the span that obeys the rules, and none without such a span, and reports its line effect |
| AnchoredEdit.EditUndoes | ds4_agent.c:6278-6319 | for every edit, the opposite one restores the file if and only if it succeeds at all and the text replaced was the old text as written, as it always is for an old text without `[upto]`; for a new text without `[upto]` it succeeds if and only if that is not empty and unique in the result |
| Paging.Reader.SetMore | ds4_agent.c:5642-5648 | the cursor is stored, and valid with a path and a positive line |
| Paging.Reader.ReadRange | ds4_agent.c:5665-5737 | a page returns the lines of its range, numbered or bare, and leaves the cursor behind them |
| Paging.Reader.ReadMore | ds4_agent.c:5750-5756 | the page continues where the last one stopped, in its mode, and returns those lines |
| Paging.SpanContent | ds4_agent.c:5510-5528 | a span cuts the terminator-free content of its line out of the file |
| Paging.PageExact | ds4_agent.c:5682-5691 | a page shows the next lines it was asked for if and only if start plus count fits an `int` |
| Paging.PagingCoversOnce | ds4_agent.c:5665-5756 | for every start line the tool accepts and all counts, a read and any `more` calls behind it show each line from the start on once, in order, as many as asked for or there are (none from behind the last line), if and only if no page overflows |
| Paging.CursorAdvances | ds4_agent.c:5730-5733 | for every start line and all counts the cursor strictly advances and is valid exactly while lines are left to ask for; the page that ends the reading shows the last line if and only if it did not overflow |
| Paging.PagesReturnTheFile | ds4_agent.c:5665-5756 | for every start line the tool accepts and all counts, a read and its `more` calls return, page for page, the lines of consecutive cuts, each line with its number and content or as it stands in the file, if and only if no page overflows |
| Paging.CutsCover | ds4_agent.c:5682-5691 | the cuts follow one another from the start line on, up to what was asked for or the end of the file |
| Paging.PagesTogether | ds4_agent.c:5665-5756 | the numbered pages joined are the lines from the start line on, each once with its number; the bare pages are the bytes of those lines, with one line feed added to a page that lacks it |
| Paging.WholeReturnsTheRest | ds4_agent.c:5682-5733 | a read of the whole file from a line on returns all of it and leaves nothing to continue |
| Paging.DefaultsAreRead | ds4_agent.c:5682-5691 | a start line below one is the first line, and a count below one the default count |
| TraceWriter.Trace.WriteBlock | ds4_eval.c:2505-2516 | a block is its begin line with the byte count, its text ended by a line feed, and its end line |
| TraceWriter.Trace.WriteCase | ds4_eval.c:2587-2666 | a case is its header line, its metadata lines and its three blocks, in order |
| TraceScanner.BoundedFind | ds4_eval.c:3044-3053 | the first occurrence in the range, or none |
| TraceScanner.CopySpan | ds4_eval.c:3055-3062 | the span without trailing line ends, cut to its buffer |
| TraceScanner.SkipCountedBlock | ds4_eval.c:3064-3101 | the counted block at the line, skipped by its byte count, or none |
| TraceScanner.FindNextCase | ds4_eval.c:3103-3124 | the next case header outside counted blocks |
| TraceScanner.FindBlockBegin | ds4_eval.c:3126-3147 | the next begin line with the label outside counted blocks |
| TraceScanner.GetLineField | ds4_eval.c:3149-3165 | the rest of the first line that starts with the key |
| TraceScanner.CopyModelOutput | ds4_eval.c:3179-3214 | the output block's text by its byte count, or by its delimiter if it has none |
| TraceScanner.SpanIsExact | ds4_eval.c:3055-3062 | what is copied of a span is the longest beginning without line ends behind it that fits its buffer |
| TraceScanner.OldOutputIsRead | ds4_eval.c:3179-3214 | an output without a byte count is the text up to the first end marker that starts a line, and is read if and only if there is one |
| TraceRoundTrip.PrintedNumber | ds4_eval.c:3086-3089 | a printed byte count is read back up to the first byte behind it |
| TraceRoundTrip.BlockIsSkipped | ds4_eval.c:3064-3101 | a written block is skipped exactly, whatever its text holds |
| TraceRoundTrip.OutputIsCopied | ds4_eval.c:3179-3214 | the text of a written block is returned byte for byte |
| TraceRoundTrip.BreakLinesKeepsText | ds4_eval.c:2653-2660 | metadata lines that hold line feeds are written as the lines they break into |
| TraceRoundTrip.CaseScanPasses | ds4_eval.c:3103-3124 | the case scan passes over any written lines and blocks that are no case header |
| TraceRoundTrip.BlockScanPasses | ds4_eval.c:3126-3147 | the block scan passes over any written lines and blocks with other first lines |
| TraceRoundTrip.FieldScanPasses | ds4_eval.c:3149-3165 | the field scan passes over lines that do not start with the key |
| TraceFields.MetadataIsRead | ds4_eval.c:2587-2666 | each of the sixteen fields that every written case has is found under its name with the value it was given; none is left out, takes another's value, or hides another |
| TraceFields.HeaderIsRead | ds4_eval.c:2605-2606 | from the header line the number of the case, counted from 1, and the number of cases read back, with source and id behind them |
| Regrade.FindCaseBySourceId | ds4_eval.c:3167-3177 | the first embedded case with that source and id |
| Regrade.JudgeCase | ds4_eval.c:3242-3318 | one case of the file is judged from its fields, its embedded case and its output, with the error cases |
| Regrade.RegradeTrace | ds4_eval.c:3242-3325 | the loop counts the verdicts of the cases of the file, and the exit status says whether there was any and all were known |
| Regrade.TwoLines | ds4_eval.c:2653-2660 | a choice with a line feed is written as the lines before and behind it |
| Regrade.FieldsAreRead | ds4_eval.c:2587-2666 | source, id, status and pick are read as they were written |
| Regrade.OutputIsRead | ds4_eval.c:3179-3214 | the model output of a written case comes back byte for byte |
| Regrade.CaseIsFoundWhole | ds4_eval.c:3253-3262 | a written case is found whole, whatever its texts hold |
| Regrade.RegradeIsRecount | ds4_eval.c:3242-3325 | regrading a written file is recounting its records: the cases found are exactly the cases written, each judged on its own output |
| Regrade.RegradeIsStable | ds4_eval.c:3982-3993 | regrading the trace of runs of the embedded cases, line feeds in their choices included, gives back the recorded counts and reports a change for exactly the graded cases with an empty pick, which no extractor gives |
| Regrade.RegradeDrift | ds4_eval.c:3224-3325 | records of any runs of embedded cases, empty statuses included, regraded with any scorer: `passed` counts the completed answers that this scorer accepts, `failed` the other completed ones, and `changed` exactly those whose recorded verdict or printed pick differs from what this scorer says; the rest are not graded |
| Regrade.OldTraceVerdict | ds4_eval.c:3224-3306 | a case without a status or a pick is graded on its output alone and never reported as changed |
| Regrade.ForeignAreUnknown | ds4_eval.c:3270-3290 | the cases of a written trace that no embedded case has are exactly the unknown ones, and none is a parse error |
| Regrade.JudgedExactly | ds4_eval.c:3264-3300 | a case of any file is a parse error exactly if its source or id is missing or it is embedded and has no output, unknown exactly if it names no embedded case, and not graded by its status alone |
| Regrade.TallyAdds | ds4_eval.c:3242-3325 | for every file each case found is counted once, and only graded ones as changed |
| ThinkBudget.Choose | ds4_eval.c:3836-3886 | the forced token, the control behind it and the reason for closing, as specified |
| ThinkBudget.Decode | ds4_eval.c:3836-3957 | the decode loop computes the run |
| ThinkBudget.StepInv | ds4_eval.c:3836-3957 | before the hard limit nothing is left half forced, and thinking is open only while the text holds no closing tag |
| ThinkBudget.TokenBeforeHardLimit | ds4_eval.c:3836-3957 | before the hard limit the token is the closing tag exactly when the soft limit is due and the sampled one otherwise, a hidden first token gives way to a visible one, and the end token, a failure and any other token end, break and extend the run |
| ThinkBudget.SoftCloseCloses | ds4_eval.c:3836-3957 | a soft close that is due behind a text without NUL ends thinking |
| ThinkBudget.AnswerReserve | ds4_eval.c:3836-3957 | for every thinking text: if thinking is open when the hard budget is left, the next tokens are the closing tag and the answer prefix; the rest is free if the text holds no NUL, and tag and prefix over and over if it does; the run has exactly the limit's length |
| ThinkBudget.ForcedTagCloses | ds4_eval.c:3836-3957 | the forced tag closes thinking if and only if the text up to the hard limit holds no NUL |
| ThinkBudget.NulSpendsTheReserve | ds4_eval.c:3836-3957 | a run whose reserve is spent on a second closing tag |
| ThinkBudget.CloseIsReported | ds4_eval.c:3917-3957 | the report on how thinking was closed is true in every run that does not fail: place, remaining budget and reason, and no close goes unreported |
| ThinkBudget.NeverBeyondLimit | ds4_eval.c:3836-3957 | no run generates more than the limit |
| Compaction.Worker.TailStart | ds4_agent.c:7287-7303 | the tail starts at the first user marker of the window, or with the window if it has none, and that is the one such position |
| Compaction.Worker.WriteSummary | ds4_agent.c:7415-7467 | the loop writes the model's summary, and every failure leaves the session invalid |
| Compaction.Worker.Compact | ds4_agent.c:7340-7526 | it succeeds exactly when there is room, both syncs work and the summary is not empty; a failure leaves the transcript and a session untouched or invalid; a success leaves the rebuilt transcript and the session equal to it, before any notice |
| Compaction.CompactionKeepsRecent | ds4_agent.c:7287-7303 | the rebuilt transcript is the system tokens, a message that carries the summary, and a verbatim end of the old conversation within the tail budget, from the first user marker of the window on |
| Compaction.MessageCarriesSummary | ds4_agent.c:7482-7500 | the message carries the C text of the summary byte for byte right behind its heading, ended by one line feed and followed by the closing line, and no other text of that length |
| Compaction.SummaryExact | ds4_agent.c:7416-7467 | the summary is the texts of the model's tokens, in order, up to the first end token, control token or the limit, without a `<` right before the DSML token; an interrupt before that stops it and a failed evaluation fails it |
| Compaction.SummaryFits | ds4_agent.c:7375-7394 | the prompt for the summary and any summary fit into the context together |
| Compaction.BudgetIsTenth | ds4_agent.c:7287-7303 | the tail budget is the largest number of tokens, up to the cap, that is a tenth of the context, but at least one |
| TailCapture.Capture.Fill | ds4_agent.c:1586-1597 | bytes fill the free room around the end of the buffer |
| TailCapture.Capture.OverwriteAll | ds4_agent.c:1599-1607 | a full ring keeps the last bytes |
| TailCapture.Capture.Replace | ds4_agent.c:1579-1584 | a chunk of at least the capacity leaves its own end |
| TailCapture.Capture.Append | ds4_agent.c:1572-1608 | the contents become the last capacity bytes of the old contents and the chunk |
| TailCapture.Capture.Take | ds4_agent.c:1610-1624 | the contents come out in order and the capture is cleared |
| TailCapture.AppendsKeepTheTail | ds4_agent.c:1572-1608 | appends of any sizes leave the last capacity bytes of everything appended |
| JsonText.CharIsEncoding | ds4_cli.c:565-588 | every character of the byte grammar encodes the scalar value it stands for |
| JsonText.EncodingIsChar | ds4_cli.c:565-588 | every scalar value's encoding is a character of the byte grammar |
| JsonText.Utf8Exact | ds4_cli.c:565-588 | a text can be cut into characters exactly when it is a concatenation of them |
| JsonText.CharAt | ds4_cli.c:568-586 | the loop body finds the character at a position, or that there is none |
| JsonText.Utf8Valid | ds4_cli.c:565-588 | the loop accepts exactly the texts of section 4 of RFC 3629 |
| JsonText.WriteString | ds4_cli.c:590-615 | the written text, in the mode that the input's validity chooses |
| JsonText.JsonIsFaithful | ds4_cli.c:590-615 | what is written is a string of section 7 of RFC 8259 that reads back as the input's code points, or as one code point per byte if the input is not UTF-8 |
| Lifecycle.State.Transition | ds4_protocol_state.c:43-49 | an allowed change is made and stamped, any other is refused without effect |
| Lifecycle.State.BeginRecovery | ds4_protocol_state.c:51-57 | recovery is entered once, from decoding |
| Lifecycle.State.Finish | ds4_protocol_state.c:59-66 | a terminal phase is entered once and marked |
| Lifecycle.State.Progress | ds4_protocol_state.c:68-74 | counters are updated unless the record is terminal; negative ones are ignored |
| Lifecycle.ChangesAllowed | ds4_protocol_state.c:10-41 | the phase changes there are, and that any open phase may end |
| Lifecycle.FinishRecords | ds4_protocol_state.c:59-66 | a finish succeeds exactly for a terminal outcome of an open record, and records that outcome |
| Lifecycle.ProgressRecords | ds4_protocol_state.c:68-74 | progress sets each counter that is not negative, and the time, on every record that is not terminal |
| Lifecycle.FinishedIsFinal | ds4_protocol_state.c:43-74 | a finished record never changes again, counters included |
| Lifecycle.LifecycleBounds | ds4_protocol_state.c:10-74 | every disciplined run has at most one recovery, one finish and six phase changes, and the terminal flag says whether the phase is terminal |
| Lifecycle.SixChangesHappen | ds4_protocol_state.c:10-74 | the bound of six is reached |
| Lifecycle.UndisciplinedNeverEnds | ds4_protocol_state.c:10-49 | without the discipline the number of phase changes is unbounded |
| Lifecycle.UndisciplinedEndStillMoves | ds4_protocol_state.c:43-74 | a terminal phase entered by a plain transition takes any progress, and nothing else changes the record |
| Lifecycle.FlagIsRightExactly | ds4_protocol_state.c:43-74 | over every run the terminal flag ends right if and only if no plain transition into a terminal phase succeeded |
| Lifecycle.ChangesAreBounded | ds4_protocol_state.c:10-66 | every run has at most one `begin_recovery` that succeeds, and at most six phase changes and two more for each plain entry into recovery |

## Left out

- The engine, its sessions and its tokenizer: a session is its tokens or invalid, and sampling, ranking, syncing and evaluation are given results.
- The terminal: rendering, markdown, syntax highlighting and the tool visualiser are a sequence of events, which say which bytes reach them and in which order.
- DsmlStream.StreamingIsBatch: starts from a fresh parser; what a second opener does to a finished one is in `ToolOrigin`, `ToolOnce` and `ToolTail`. Bytes behind a finished stanza may differ in the raw buffer.
- StreamDisplay.DisplaySplitInvariance: the colour of an open parameter and the text attributes that every non-empty call restores before its first byte are not among the events, as their number depends on the cutting.
- StreamRenderer.Renderer.FeedDsmlByte: the check of a closed edit parameter against its file, which can stop a call early.
- StreamRenderer.Renderer.Text: the restored colours and attributes at the start of a call, and the message of a stopped edit at the end.
- ToolRound.Conclude: the exit for an edit stopped early.
- ToolRound.RunRound: the edit check that can stop a call early and the forced completion of `[upto]` are not part of the round.
- ToolText.PrintedCallsRun: thinking and prose hold no think tag besides the closing one between them.
- ToolTail.CallsRunOnceExactly: the text right behind the calls starts with a blank and shows no marker, and the second opener is the canonical one; `ToolOnce.RunOnceExactly` has the exact condition for every text.
- WorkerSections.Worker.NextCommand: the save, compaction and power requests that also end the wait; the headless loop makes none.
- Handoff: interactive input, where a typed line may overtake the queue, saving, compaction and power requests, web approval, interrupts, session loading, one-shot mode, the readiness markers on stderr, and failures of `poll`, `read` and `write`.
- HandoffSafety.DeliveredInOrder: follows messages, not the text that joins them; `PromptQueue.CutCarries` says what the text buffer loses. A joined text put back after a refused submit is followed by the end of the loop.
- HandoffProgress.InputGoesOut: counts the steps of the UI; that the scheduler lets each thread run is not part of the model.
- AnchoredEdit.EditFile: reading and writing the file, the selectors by line number and the text of the report.
- Paging.Reader.ReadRange: the header line and the hints printed around a page.
- Paging.PageExact: the sum of start and count is taken to wrap around; the source language leaves a signed overflow undefined.
- TraceWriter.Trace.WriteCase: printed numbers other than counters and byte counts, and the run's own header lines, are given as text.
- TraceFields.MetadataIsRead: the values hold no line feed; the lines of an error and of the choices are not among the fields that every case has.
- Regrade.RegradeIsRecount: no metadata line holds a begin marker, the lines up to the pick hold no line feed, no line behind one starts like a case header or an output block, and texts are C strings shorter than 2^64 bytes; answer extraction and comparison are given functions.
- ThinkBudget.AnswerReserve: the tokenizer spells the closing tag token by token, and the model neither ends the answer by itself nor fails.
- ThinkBudget.Decode: pausing, quitting and switching cases.
- Compaction.Worker.Compact: progress output and status updates, and when compaction is asked for.
- TailCapture.Capture.Append: the overflow of the byte total.
- JsonText.WriteString: the stream it writes to; the text is returned.
- Allocation failures, the 128 KiB cap of the agent's text buffers outside the prompt queue, option parsing, bash jobs, sockets and signals.
- The benchmark tool and the speculative decoding runtime: short branch functions and timing that would add only easy members.
