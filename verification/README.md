# xMind agent backend: verified model

A Dafny 4.11 model of the hard parts of the native agent backend, with proofs for all inputs, all fault
schedules and all interleavings of the modelled steps. `dafny verify dfyconfig.toml` checks everything.

| module | component |
|---|---|
| `LineDiff` | the bounded diff preview of a file change |
| `Calendar`, `Timestamp` | RFC 3339 timestamps of the task protocol |
| `Base64`, `Utf8` | the byte codecs of message parts |
| `EventFramer`, `LineEnds`, `EventWriter` | the incremental event-stream framer of the A2A client, and the streams it reads back |
| `ChatInput` | the bounded input queue of the command line |
| `EventLog`, `TaskStream`, `RunWatch` | two observers of a run that a concurrent writer appends to |
| `TurnLoop`, `ModelValues` | the agent's turn loop and the messages it stores |
| `CallableHost`, `DelegateTool` | effect ledgers: backend callables and delegation to a remote agent |
| `AgentRegistry`, `DefinitionDocument`, `AgentDefinitions`, `PermissionGrants` | versioned catalogues |
| `JsonText`, `FileEnvelope` | the wire form of a file-tool call |
| `Common`, `Arithmetic` | shared types and facts |

## How the code is modelled

Code that changes things in place is a method or a class, proved against functions; code that computes
values is functions. Bytes and text are sequences, integers are unbounded, and the constants are those of
the source. What the components call out to is modelled as follows.

- Event store: a log with increasing sequence numbers; a terminal state is committed together with its
  last events, and nothing follows it. Observers may read it at any points of its growth.
- Information store: comparison and write are one atomic step. A failed comparison has written nothing; one
  that succeeded may be reported as failed where the model says so. Encodings are injective, so comparing
  documents is comparing bytes. Random identifiers are unused, and grant digests are injective.
- Model, journal, approval, transport and tools: a fault schedule is a parameter that fixes what each
  outside call does, in the order of the calls. `TurnLoop` and `DelegateTool` return the story of their
  outside effects, and a monitor that knows only the protocol judges it.
- The clock, JSON sizes (`encodedSize`, `size`), JSON normalisation (`normal`), the wording around attached
  files (`marks`), the JSON-RPC test of a streamed envelope and the ownership test of an event (`accepts`)
  are parameters.

## What the code does not do

Each of these is proved, with the exact condition under which the expected property holds.

- The framer takes CR and LF each as a line end. With CR LF line ends an event of two data lines is torn
  (`CrLfTearsEvent`), and one whose id follows its data loses it to the next event (`CrLfLosesId`). For every
  stream, whatever line ends it mixes, the frames are those of the standard split exactly under `SameFrames`
  (`EveryStreamFrames`): a CR LF that finds data has no more data behind it in its block, the last id of the
  block in force, and a blank line to come; where none finds data, both splits hold the same id at the end.
- Registering a new agent in a catalogue of 256 stores a document the registry refuses to read, and no
  operation can replace it afterwards (`PublishedIsReadable`, `FullCatalogWedges`, `WedgedForEver`).
- A failing `pin_context` behind a reservation (lines 872 and 922 of `agent_runner.cpp`) leaves that attempt
  unfinished; nothing else does (`RunTurn`, `Execute`).
- Stream recovery tests the task id once, so a second resubscription can name an empty id
  (`ClearedTaskIsResubscribed`, `KnownTaskUnlessCleared`).
- A revocation's retry loop never makes a second comparison, because losing the first makes its revision
  stale (`RevokeComparesOnce`).
- A client holds its last restart and the text behind it, and the snapshot the last answer with content
  (`ClientHolds`, `SnapshotIsLastAnswer`); they agree exactly when these spell the same
  (`StreamEqualsSnapshotIff`). An answer without content can make them differ (`AnswerWithoutContent`), text
  behind a tool turn need not (`TextBehindToolTurn`), and where neither occurs they differ exactly when text
  follows the answer (`AnswerRestart`). The writers of the repository commit one answer together with the end
  of the run (lines 1616, 2506 and 2831 of `repository.cpp`), so two answers are no log of theirs; on their
  logs every client converges exactly when that answer has content (`EveryClientConverges`).
- The live and the stored assistant message differ exactly when the provider items are not in normal form
  (`FormattedReadsBack`, `WindowsAgree`).
- A publication whose acknowledgement is lost makes `register_agent` delete the credential it has published;
  nothing is lost exactly when it carried no new one (`LostAcknowledgement`). In every run, a credential that
  is named and missing is one lost in this way, and nothing else about the catalogues suffers (`EveryRun`).
- `apply` writes without comparing. When two calls read the same catalogue, one number can denote two contents
  (`RacingDocuments`) or a retired agent can return (`RacingRetirement`). What holds of serial calls still holds
  exactly when the two do not both write, or the second neither contradicts what the first changed nor names
  what it retired (`RacingApplies`); a number denotes two contents exactly when both write, both change one
  agent, and they disagree about it (`RacingNumbers`). The import is meant to be used offline, one call at a time.
- Nothing tests the size of what `apply` writes: it is loaded again exactly when it is at most 1 MiB
  (`StoredLoads`), which a document of 256 KiB ensures (`WrittenFits`).
- `timestamp` writes instants outside years 1 to 9999 that `timestamp_ms` refuses (`RoundTrip`).

## Model

| member | source | states |
|---|---|---|
| `LineDiff.LinesRejoin` | Native/apps/cli_main.cpp:424-432 | The lines the scan sees, each with its line feed, are the content again, up to a line feed missing at the very end |
| `LineDiff.LinesSplit` | Native/apps/cli_main.cpp:424-432 | The lines the scan sees hold no line feed and make up the content |
| `LineDiff.ClipWithinBudget` | Native/apps/cli_main.cpp:422-431 | A preview never exceeds 40 lines, 8192 encoded bytes in all and 1024 bytes a line |
| `LineDiff.ClipFaithful` | Native/apps/cli_main.cpp:424-434 | The preview is a line-by-line prefix of the content, only its last line may be cut, and it is marked truncated exactly when it is not the whole content |
| `LineDiff.ClipMaximal` | Native/apps/cli_main.cpp:424-432 | Every shown line is shown up to 1024 bytes, and a preview is cut only where a line is longer or the next one has no room in 40 lines or 8192 encoded bytes |
| `LineDiff.PreviewLines` | Native/apps/cli_main.cpp:421-435 | The offset loop computes exactly the clipped lines of the content |
| `LineDiff.LcsIsUpperBound` | Native/apps/cli_main.cpp:440 | No common subsequence of the two sides is longer than the table's value |
| `LineDiff.CellIsRowMajor` | Native/apps/cli_main.cpp:439 | The flat index of a cell is the index expression of the source |
| `LineDiff.CellInRange` | Native/apps/cli_main.cpp:439 | Every legal row and column has its index inside the flat vector |
| `LineDiff.FillTable` | Native/apps/cli_main.cpp:439-440 | The backward in-place fill leaves the longest-common-subsequence length of the two suffixes in every cell |
| `LineDiff.FillCell` | Native/apps/cli_main.cpp:440 | One cell is computed from its three finished neighbours and no other element of the vector changes |
| `LineDiff.WalkTable` | Native/apps/cli_main.cpp:445-450 | The greedy walk over the filled table prints the reference edit script |
| `LineDiff.ScriptCorrect` | Native/apps/cli_main.cpp:446-450 | Dropping insertions gives the old lines, dropping deletions gives the new lines, and the context is as long as the longest common subsequence |
| `LineDiff.ContextIsCommon` | Native/apps/cli_main.cpp:447 | The context of any script is a common subsequence of its two sides |
| `LineDiff.ScriptMinimal` | Native/apps/cli_main.cpp:446-450 | No edit script between the same two sides is shorter or keeps more context |
| `LineDiff.GuardNeverFires` | Native/apps/cli_main.cpp:437-438 | The cell-count guard cannot fire, because both previews have at most 40 lines |
| `LineDiff.UnifiedPreview` | Native/apps/cli_main.cpp:436-453 | For all contents the preview succeeds, prints a best edit script of the two previews, gives start and count of each side in its header, and says truncated or empty exactly when so |
| `Calendar.DayNumberCounts` | Native/src/a2a_task_control.cpp:33 | The day number of the next calendar day is one more, on the proleptic Gregorian calendar |
| `Calendar.DayNumberInjective` | Native/src/a2a_task_control.cpp:33 | Different valid dates have different day numbers |
| `Calendar.FromDayNumber` | Native/src/a2a_task_control.cpp:36 | Gives the valid date with a given day number, for every integer |
| `Timestamp.ParseRendered` | Native/src/a2a_task_control.cpp:25-32 | Every admitted date-time of RFC 3339 section 5.6, with any offset and up to nine fraction digits, is read back from its text |
| `Timestamp.RenderParsed` | Native/src/a2a_task_control.cpp:25-32 | Every accepted text is the rendering of what was read |
| `Timestamp.AcceptedTexts` | Native/src/a2a_task_control.cpp:24-34 | A text is accepted exactly when it renders an admitted date-time, that date-time is unique, and its value is the ceiling in milliseconds of the instant |
| `Timestamp.MillisecondsIsCeiling` | Native/src/a2a_task_control.cpp:31-33 | The value computed is the least number of milliseconds not before the instant |
| `Timestamp.TimestampMs` | Native/src/a2a_task_control.cpp:24-34 | The reading loops accept exactly the texts of the reference parser and return its milliseconds |
| `Timestamp.TimestampRenders` | Native/src/a2a_task_control.cpp:35-38 | In years 0 to 9999 the streamed text is the rendering of the instant's date-time in UTC |
| `Timestamp.RoundTrip` | Native/src/a2a_task_control.cpp:24-38 | Writing and reading an instant returns it if its year is 1 to 9999, and is refused otherwise |
| `Timestamp.RoundTripRange` | Native/src/a2a_task_control.cpp:29-38 | Those instants are exactly -62135596800000 to 253402300799999 |
| `Base64.DecodeEncode` | Native/src/a2a_task_control.cpp:56-60 | Decoding inverts the encoder of RFC 4648 section 4 |
| `Base64.EncodeDecode` | Native/src/a2a_task_control.cpp:56-60 | Encoding what was decoded gives the input back, so only canonical texts (section 3.5) are accepted |
| `Base64.DecodeBase64` | Native/src/a2a_task_control.cpp:56-60 | The four-byte loop returns the reference decoding, or fails when there is none or it exceeds 65536 bytes |
| `Base64.AcceptsCanonical` | Native/src/a2a_task_control.cpp:56-60 | Accepted are exactly the encodings of byte strings of at most 65536 bytes |
| `Utf8.DecodeEncoded` | Native/src/a2a_task_control.cpp:51-53 | The octets of a scalar value decode to it |
| `Utf8.EncodeDecoded` | Native/src/a2a_task_control.cpp:51-53 | What decodes is the encoding of a scalar value: no overlong form, surrogate or value above 10FFFF |
| `Utf8.ValidIffUtf8` | Native/src/a2a_task_control.cpp:50-55 | A byte string passes the scan exactly when it is a concatenation of encoded scalar values (RFC 3629 section 4) |
| `Utf8.ReadContinuations` | Native/src/a2a_task_control.cpp:53 | The inner loop accepts exactly continuation octets and accumulates the code |
| `Utf8.ValidUtf8` | Native/src/a2a_task_control.cpp:50-55 | The index loop accepts exactly UTF-8 |
| `EventFramer.Framer.constructor` | Native/src/a2a_client.cpp:111 | A new framer has nothing pending and has delivered nothing |
| `EventFramer.Framer.Deliver` | Native/src/a2a_client.cpp:112-119 | A block with data becomes one frame or one error, and clears data and identifier |
| `EventFramer.Framer.TakeField` | Native/src/a2a_client.cpp:120 | One line has the effect of the line function; an over-long event is refused, so data stays within 1 MiB |
| `EventFramer.Framer.Receive` | Native/src/a2a_client.cpp:121-123 | A chunk has the effect of its bytes one after the other |
| `EventFramer.DataLineMeans` | Native/src/a2a_client.cpp:120 | For every value, `data:` and the value, with or without one space between, contributes exactly that value |
| `EventFramer.IdLineMeans` | Native/src/a2a_client.cpp:120 | Likewise for `id:`, unless the value holds a zero octet, which is ignored, or a control character or more than 1024 octets, which is an error |
| `EventFramer.BareLineMeans` | Native/src/a2a_client.cpp:120 | The bare names `data` and `id` have the empty value |
| `EventFramer.OtherLineMeans` | Native/src/a2a_client.cpp:120 | A comment, and a line of any other name, contributes nothing |
| `EventFramer.EveryLine` | Native/src/a2a_client.cpp:120 | Every line is of one of these forms |
| `EventFramer.ReadStream` | Native/src/a2a_client.cpp:111-124 | The whole stream, in any chunks, gives the result of its concatenation, and what was delivered are the frames of that run, also when it failed or was truncated |
| `EventFramer.ChunkingIrrelevant` | Native/src/a2a_client.cpp:121-123 | How a stream is cut into chunks does not matter |
| `EventFramer.BytesAreLines` | Native/src/a2a_client.cpp:122 | Feeding bytes is taking the lines they form and keeping the rest pending |
| `EventFramer.FramerIsReference` | Native/src/a2a_client.cpp:111-124 | The stream succeeds exactly when it is admitted, its last block is closed and there is a frame; the frames are those of grouping lines at blank lines; a truncated last event is an error |
| `EventFramer.DeliveredWithinLimit` | Native/src/a2a_client.cpp:114-120 | Whatever a stream delivers, to its end or before a failure, was accepted, is at most 1 MiB, and is at most 8192 events |
| `EventFramer.DeliversPrefix` | Native/src/a2a_client.cpp:111-124 | Every stream, failed or not, has delivered the reference frames in order up to some point |
| `LineEnds.SplitsAgree` | Native/src/a2a_client.cpp:122 | Without CR LF pairs the lines are those of section 9.2.6 of the HTML Living Standard |
| `LineEnds.CrLfDoublesLines` | Native/src/a2a_client.cpp:122 | With CR LF line ends every line is followed by an empty one that the standard does not have |
| `LineEnds.CrLfFramePerDataLine` | Native/src/a2a_client.cpp:120-122 | Such a stream gives one frame per data line |
| `LineEnds.CrLfKeepsFrameCount` | Native/src/a2a_client.cpp:112-124 | It gives as many frames as the lines alone exactly when every block has at most one data line and the open block none |
| `LineEnds.CrLfKeepsFrames` | Native/src/a2a_client.cpp:111-124 | A CR LF stream gives the very frames of its lines exactly under the condition of `EveryStreamFrames`, with every line marked |
| `LineEnds.EveryStreamFrames` | Native/src/a2a_client.cpp:111-124 | For every stream of any line ends, the frames are those of the split of section 9.2.6 of the HTML Living Standard exactly when every CR LF that finds data in its block has no more data behind it there, finds the last identifier of the block in force and is followed by a blank line, and where none finds data both splits hold the same identifier at the end of the block; identifiers behind a delivery are carried on |
| `LineEnds.TornFrames` | Native/src/a2a_client.cpp:111-124 | The same comparison for any identifiers carried into both splits |
| `LineEnds.MarkedCuts` | Native/src/a2a_client.cpp:122 | On every stream the framer sees the lines of the standard split, each CR LF adding a blank one |
| `LineEnds.CrLfTearsEvent` | Native/src/a2a_client.cpp:120-122 | Any event of two data lines with CR LF line ends is torn into two frames |
| `LineEnds.CrLfLosesId` | Native/src/a2a_client.cpp:120-122 | Any event whose identifier follows its data keeps its frame under CR LF and loses the identifier |
| `EventWriter.JoinParts` | Native/src/a2a_client.cpp:120 | Data cut at its line feeds and joined again is the same data |
| `EventWriter.WrittenIsRead` | Native/src/http_server.cpp:386 | Any legal frames, written as id, event and data lines with a blank line behind each as the server writes them, are delivered exactly as they were, in whatever chunks they arrive |
| `ChatInput.Monitor.constructor` | Native/apps/cli_main.cpp:486-489 | A new queue is empty and open |
| `ChatInput.Monitor.Enqueue` | Native/apps/cli_main.cpp:494-502 | An admitted line without its CR joins the ready list and both counters follow; an over-long line is refused |
| `ChatInput.Monitor.ReadLine` | Native/apps/cli_main.cpp:542-550 | Takes the first deferred line, else the first ready one, and both counters follow |
| `ChatInput.Monitor.ControlLine` | Native/apps/cli_main.cpp:554-571 | Takes a ready line as command or text, or moves it to the deferred list, and both counters follow |
| `ChatInput.ControlMeans` | Native/apps/cli_main.cpp:560-571 | `/cancel`, `/exit` and plain text are handed over as they are, a text with two slashes in front with one, and any other text with a slash is put off |
| `ChatInput.StripMeans` | Native/apps/cli_main.cpp:495 | One carriage return at the end of a line is taken off, and nothing else |
| `ChatInput.EveryRun` | Native/apps/cli_main.cpp:482-575 | In every interleaving the counters equal the lists and stay within 1 MiB and 256 lines, deferred then ready is a subsequence of arrivals, every arrival is queued or delivered once, and what was delivered is what arrived |
| `ChatInput.ReadDeliversOldest` | Native/apps/cli_main.cpp:544-549 | A read delivers the oldest line not yet delivered |
| `ChatInput.EmptyQueueAdmits` | Native/apps/cli_main.cpp:496-500 | An empty queue admits the next legal line |
| `ChatInput.FullQueueDrains` | Native/apps/cli_main.cpp:498-549 | A queue that refuses a line has one to read, so producer and consumer never wait for each other |
| `EventLog.PageAt` | Native/src/repository.cpp:2976-2986 | A batch read after a cursor is the next stretch of the log, up to its limit |
| `TaskStream.TaskStream.constructor` | Native/src/a2a_task_control.cpp:96-107 | A stream starts at cursor 0 and replays nothing when the first response already holds the artifact |
| `TaskStream.TaskStream.TakeEvents` | Native/src/a2a_task_control.cpp:116-126 | The event loop emits the responses of the batch and moves the cursor to its last event |
| `TaskStream.TaskStream.TakeEvent` | Native/src/a2a_task_control.cpp:117-126 | One event moves the cursor and, unless the artifact was sent with the snapshot, has the effect of its kind |
| `TaskStream.TaskStream.Poll` | Native/src/a2a_task_control.cpp:109-134 | One poll has the effect and the batch of the specification, state read before events |
| `TaskStream.AnswerText` | Native/src/a2a_task_control.cpp:46-49 | The text of an answer is its content and its refusal, with a line feed between when there are both |
| `TaskStream.PollReports` | Native/src/a2a_task_control.cpp:114-134 | A poll with a full page tells no state; any other tells the state it read exactly when that changed or ends the stream |
| `TaskStream.StatesTold` | Native/src/a2a_task_control.cpp:128-134 | Over every schedule the last state told to the client is the one the stream knows |
| `TaskStream.SnapshotFirst` | Native/src/a2a_task_control.cpp:109-111 | The first response is the snapshot the stream was opened on, and no later one is |
| `TaskStream.PollMoves` | Native/src/a2a_task_control.cpp:114-127 | A poll consumes exactly the next stretch of the log |
| `TaskStream.PollEmits` | Native/src/a2a_task_control.cpp:116-126 | Its artifact responses are those of that stretch |
| `TaskStream.ExactlyOnceInOrder` | Native/src/a2a_task_control.cpp:109-134 | Against every writer, all polls together emit the responses of the events they passed, each once and in order |
| `TaskStream.FinalMeansDrained` | Native/src/a2a_task_control.cpp:112-133 | A final batch ends with the final status and leaves no committed event behind; after a terminal state nothing can follow |
| `TaskStream.NeverFinalEarly` | Native/src/a2a_task_control.cpp:109-134 | In every run, a stream that ended on a terminal state has passed the whole log |
| `TaskStream.EndsInTime` | Native/src/a2a_task_control.cpp:115-133 | With r events left after the end of the run, the stream has ended after n polls exactly when n is at least r/128 + 1 |
| `TaskStream.ClientEndsWithAnswer` | Native/src/a2a_task_control.cpp:116-126 | A log that ends with an answer leaves its text with the client, and the snapshot shows it exactly when the answer has content or an earlier one with content says the same |
| `TaskStream.ClientHolds` | Native/src/a2a_task_control.cpp:116-126 | For every log, a client holds the last restart (an answer, or the first visible text since a tool turn or the beginning) followed by all text behind it |
| `TaskStream.RestartPlace` | Native/src/a2a_task_control.cpp:119-125 | The last restart is the last answer exactly when no tool turn behind it is followed by visible text |
| `TaskStream.StreamEqualsSnapshotIff` | Native/src/a2a_task_control.cpp:64-75 | For every log, streamed and snapshot text agree exactly when the last restart of the client and the text behind it spell the last answer with content, or when nothing visible happened to a client that held nothing |
| `TaskStream.AnswerRestart` | Native/src/a2a_task_control.cpp:64-126 | Where that holds and the last answer has content, they agree exactly when no visible text follows it |
| `TaskStream.TextBehindToolTurn` | Native/src/a2a_task_control.cpp:119-122 | Text behind a tool turn behind the answer can agree with it |
| `TaskStream.AnswerWithoutContent` | Native/src/a2a_task_control.cpp:72-124 | An answer without content empties the client's text and not the snapshot's |
| `TaskStream.JoinedClientConverges` | Native/src/a2a_task_control.cpp:64-134 | A client of a completed stream ends with what a fresh snapshot shows exactly when it joined after completion and was shown the artifact, or when streamed and snapshot text agree |
| `TaskStream.EveryClientConverges` | Native/src/a2a_task_control.cpp:64-134 | Where the log holds one answer with nothing visible behind it, every client of a completed stream ends with what a fresh snapshot shows exactly when the answer has content |
| `RunWatch.ReplyAt` | Native/apps/cli_main.cpp:633 | A reply of the event endpoint is the next stretch of what lies behind the first cursor, of at most 256 events for a tree |
| `RunWatch.EmitReply` | Native/apps/cli_main.cpp:638-659 | A reply is valid exactly when its sequence numbers ascend past the cursor and every event is well formed and of an owned run; an invalid one is printed up to the event at fault |
| `RunWatch.EmitPage` | Native/apps/cli_main.cpp:633-660 | One page prints the next stretch and goes on exactly after a full tree page |
| `RunWatch.Emit` | Native/apps/cli_main.cpp:632-661 | The page loop prints consecutive stretches until everything committed at its last request is printed |
| `RunWatch.Watch` | Native/apps/cli_main.cpp:662-671 | From any first cursor, what is printed is one stretch of accepted events behind it; the observer stops only when its requests are used up, with everything printed that its last short page and the full pages since had shown, or at the first event it does not accept, or at the first terminal state it reads, after a later request found everything committed before that state printed |
| `RunWatch.PrintedIncreasing` | Native/apps/cli_main.cpp:639-658 | Printed sequence numbers lie behind the first cursor and strictly increase, without repeats |
| `TurnLoop.Consume` | Native/src/agent_runner.cpp:906-910 | Durable output is noted exactly when a visible event was acknowledged, and the first cancelled or unstored event stops the call |
| `TurnLoop.CallModel` | Native/src/agent_runner.cpp:903-927 | One call; a retriable overflow is exactly one that showed nothing |
| `TurnLoop.FinishAttempt` | Native/src/agent_runner.cpp:897-901 | The open attempt is recorded once, as completed only after a reply, as an overflow only when nothing was visible, as cancelled or failed only after a failed start, call or formatting and by the stop token |
| `TurnLoop.Supersede` | Native/src/agent_runner.cpp:917-924 | The overflowed attempt is finished and a second one reserved; it stays unfinished exactly when the pin behind it fails |
| `TurnLoop.Attempts` | Native/src/agent_runner.cpp:902-938 | At most two attempts, every one finished before the turn goes on or fails, but for a failed pin |
| `TurnLoop.RunTools` | Native/src/agent_runner.cpp:985-1077 | One result per call, in call order with matching ids, or the error of the first call that yields none |
| `TurnLoop.AfterReply` | Native/src/agent_runner.cpp:939-1085 | The next turn begins exactly after joined work or a committed tool turn; the run completes exactly after a stop with nothing open; errors of the join and of the plan lookup leave the turn |
| `TurnLoop.RunTurn` | Native/src/agent_runner.cpp:833-1085 | For every fault schedule a turn keeps the attempt protocol, leaves with the first error in the order of its outside calls and with none otherwise, and goes on, completes the run or finds its plan open exactly as the reply and the calls behind it say |
| `TurnLoop.Handle` | Native/src/agent_runner.cpp:1087-1136 | A cancellation that did not time out ends the run cancelled, any other error failed, when its transition is acknowledged; an unrecorded outcome leaves the run for recovery; all else is raised |
| `TurnLoop.Execute` | Native/src/agent_runner.cpp:833-1136 | For every fault schedule a run keeps the protocol and makes at most 2 * max_turns model calls; it ends cancelled exactly when the first error of its last turn, or of its own transition, is a cancellation, it did not time out and the handlers' transition is acknowledged; failed exactly for the other recorded errors, an open plan or the turn limit; completed exactly when a turn's answer does and is acknowledged; and at most one transition is applied, also when an acknowledgement is lost |
| `TurnLoop.CallsBounded` | Native/src/agent_runner.cpp:833-938 | In every kept protocol there are at most two attempts per turn, at most one call per attempt, and as many finishes as attempts that are not open |
| `TurnLoop.SupersededLeftNothing` | Native/src/agent_runner.cpp:903-924 | An attempt finished as an overflow has no visible output in the journal |
| `TurnLoop.SecondFollowsOverflow` | Native/src/agent_runner.cpp:917-923 | Between two reservations of one turn the first attempt is finished as an overflow, on record and after no visible output, and no other attempt is made |
| `TurnLoop.OneTerminal` | Native/src/agent_runner.cpp:532-538 | At most one terminal transition is applied, and only refused ones follow it |
| `TurnLoop.EndedMeansApplied` | Native/src/agent_runner.cpp:532-538 | The run counts as ended exactly when a transition was applied |
| `TurnLoop.CommitsMatch` | Native/src/agent_runner.cpp:1075-1081 | Every committed tool turn matches its calls and follows an attempt of the same turn recorded as completed, with no other attempt between |
| `ModelValues.AttachFiles` | Native/src/agent_model_values.cpp:25-34 | The loop appends the attachments in order behind the untouched content |
| `ModelValues.FormattedReadsBack` | Native/src/agent_model_values.cpp:21-56 | Formatting a completion and reading it back gives the live message exactly when its provider items are in normal form |
| `ModelValues.FormatMeans` | Native/src/agent_model_values.cpp:50-55 | A completion is refused as malformed exactly for impossible times or texts that are not JSON, and what is stored tells all of it within 8 MiB |
| `ModelValues.TurnReplays` | Native/src/agent_runner.cpp:985-1084 | Reading a stored tool turn extends the window by the message read and the results |
| `ModelValues.Window.constructor` | Native/src/agent_runner.cpp:619-628 | A new window holds the instructions only, until the history is read |
| `ModelValues.Window.Reload` | Native/src/agent_runner.cpp:620-627 | A reload succeeds exactly when every stored message can be read, and gives the replayed window |
| `ModelValues.Window.CommitTurn` | Native/src/agent_runner.cpp:1081-1084 | The window extended in memory stays equal to the one a reload would build exactly when the reply is in normal form, and nothing changes when formatting fails |
| `ModelValues.WindowsAgree` | Native/src/agent_runner.cpp:620-1084 | Over any number of tool turns the window in memory is the one read back exactly when every reply is in normal form |
| `ModelValues.AnswerCalls` | Native/src/agent_runner.cpp:988-1077 | One stored result and one message per call, in call order |
| `CallableHost.Host.constructor` | Native/src/agent_callable_tool_host.cpp:68-69 | A new host has admitted nothing |
| `CallableHost.Host.Invoke` | Native/src/agent_callable_tool_host.cpp:32-66 | A refused call leaves no trace; an admitted one uses up its identity, leaves the events of its invocation, which are truthful, and delivers success exactly when its binding ran, returned usable output and was recorded |
| `CallableHost.PieceTruthful` | Native/src/agent_callable_tool_host.cpp:48-65 | Recorded is succeeded exactly when the binding ran and returned usable output, uncertain exactly when it ran and did not, failed exactly when it never ran; success is delivered exactly for a recorded success, and an unrecorded outcome is reported as such |
| `CallableHost.PieceRuns` | Native/src/agent_callable_tool_host.cpp:48-56 | The binding runs exactly when the operation is acquired and every test behind it passes |
| `CallableHost.ReplyMeans` | Native/src/agent_callable_tool_host.cpp:38-65 | Every reply is given exactly under its condition |
| `CallableHost.PieceCounts` | Native/src/agent_callable_tool_host.cpp:47-64 | An acquired operation gets exactly one recording attempt, last, and the binding runs at most once |
| `CallableHost.RunsOnce` | Native/src/agent_callable_tool_host.cpp:37 | Under every interleaving a binding runs at most once per attempt and call |
| `CallableHost.RecordedOnce` | Native/src/agent_callable_tool_host.cpp:58-64 | Under every interleaving no operation gets a second recording attempt, and a finished one got its first |
| `CallableHost.EveryRun` | Native/src/agent_callable_tool_host.cpp:32-66 | Every run of concurrent invocations keeps all three, and every finished one has recorded and answered what its binding did |
| `CallableHost.CallGoesThrough` | Native/src/agent_callable_tool_host.cpp:37-66 | An admissible call is admitted whatever runs beside it, and left to itself causes exactly the events of its invocation |
| `CallableHost.WorkerHost.Invoke` | Native/src/agent_worker_callable_host.cpp:16-40 | After the start exactly one result is recorded, and it agrees with the native reply, unless the native outcome is uncertain or unrecorded; success is recorded exactly for a binding that ran, returned usable output and was recorded; and a result is delivered exactly when it was stored and nothing stopped the worker |
| `DelegateTool.Consume` | Native/src/a2a_tool_registry.cpp:108-117 | The event consumer keeps the latest task id and the rows stored, where a repeated event id adds none, and ends the stream at the first event it cannot decode or commit |
| `DelegateTool.Recover` | Native/src/a2a_tool_registry.cpp:121-142 | Recovery never sends, and resubscribes at most twice |
| `DelegateTool.ConsumedMeans` | Native/src/a2a_tool_registry.cpp:108-117 | A stream ends as its peer ended it exactly when every event decodes and is committed, and as a failure otherwise |
| `DelegateTool.RecoveredMeans` | Native/src/a2a_tool_registry.cpp:125-142 | Recovery ends complete exactly when its first round does, or its second after the first broke off or timed out |
| `DelegateTool.ClearedTaskIsResubscribed` | Native/src/a2a_tool_registry.cpp:125-139 | The id is tested once before the loop: a peer that sends an empty id during the first recovery is resubscribed to under the empty id |
| `DelegateTool.Dispatch` | Native/src/a2a_tool_registry.cpp:102-143 | The message leaves exactly when time is left and the last test passes, and the exchange then ends complete exactly when the send's stream does, or when it breaks behind a known task and one of two rounds from the last stored cursor does |
| `DelegateTool.Invoke` | Native/src/a2a_tool_registry.cpp:94-160 | For every fault schedule the invocation keeps the protocol, and every reply is given exactly under its condition: done when the message left, the exchange ended complete, its result is usable and the outcome was recorded |
| `DelegateTool.ProtocolMeans` | Native/src/a2a_tool_registry.cpp:94-160 | One send at most; two resubscriptions at most, after it, each with the latest task id and the cursor of the last stored row, the cursor never empty and the first id not empty; one outcome, last, that is failed exactly when nothing was sent |
| `DelegateTool.OutcomeMeans` | Native/src/a2a_tool_registry.cpp:118-160 | Succeeded is recorded exactly when the last stream ended complete and its result was read as usable, and a resubscription follows a stream that broke or timed out |
| `DelegateTool.KnownTaskUnlessCleared` | Native/src/a2a_tool_registry.cpp:108-139 | A resubscription names a known task exactly when the last id the peer sent is not empty |
| `AgentRegistry.Replace` | Native/src/a2a_agent_registry.cpp:58 | Erasing, appending and sorting keeps the vector sorted and changes one entry |
| `AgentRegistry.PublishedContents` | Native/src/a2a_agent_registry.cpp:51-70 | A publication changes exactly the named entry, on the revision the caller saw, and removal retires its identifier |
| `AgentRegistry.PlansAreSound` | Native/src/a2a_agent_registry.cpp:51-70 | Every planned document is a well-formed successor of the one read, and names and drops exactly the credentials accounted for |
| `AgentRegistry.PublishedIsReadable` | Native/src/a2a_agent_registry.cpp:37-59 | What is published can be read back exactly when it adds no agent to a full catalogue |
| `AgentRegistry.Persistence.CompareInformation` | Native/src/repository.cpp:4092-4104 | Stores the new document exactly when the stored one is the expected one |
| `AgentRegistry.PublishPlan` | Native/src/a2a_agent_registry.cpp:46-60 | A failed publication deletes what was created, a successful one what was replaced |
| `AgentRegistry.Perform` | Native/src/a2a_agent_registry.cpp:51-70 | Each refusal is given exactly under its own condition; a registration that succeeds leaves the agent with the address, flag and credential asked for, a removal retires it, no other entry changes, the document stays as it is exactly when the registration was there already, and the credentials follow the document |
| `AgentRegistry.DecisionMeans` | Native/src/a2a_agent_registry.cpp:51-69 | When an operation is refused and as what, when it changes nothing and when it publishes, in terms of the agents stored |
| `AgentRegistry.PublishedMeans` | Native/src/a2a_agent_registry.cpp:55-58 | A registration publishes the agent asked for on the next revision, with the new credential, none, or the one held |
| `AgentRegistry.SetEnabled` | Native/src/a2a_agent_registry.cpp:64-66 | A toggle succeeds exactly when the registration asked for was there and had the flag already, or its second section is admitted; then the stored agent has the flag asked for and the address first read, and no credential changes |
| `AgentRegistry.OperationGoesThrough` | Native/src/a2a_agent_registry.cpp:51-70 | An operation of one client that nothing comes between is published, its new credential created and the old one deleted |
| `AgentRegistry.InvariantAlways` | Native/src/a2a_agent_registry.cpp:34-70 | Every run of competing clients keeps the invariant, wherever a comparison fails, a client stops or an acknowledgement is lost; only credentials published without acknowledgement may be missing |
| `AgentRegistry.EveryRun` | Native/src/a2a_agent_registry.cpp:34-70 | In every run, lost acknowledgements included: every stored catalogue is well formed (sorted, no duplicates, active and retired disjoint, agent revisions bounded, credentials distinct), no catalogue is ever stored twice, an identifier and a revision denote one registration, retired identifiers never return, and every named credential exists but for new ones whose publication was not acknowledged |
| `AgentRegistry.LostAcknowledgement` | Native/src/a2a_agent_registry.cpp:57-59 | Where a published comparison is reported as failed, every named credential still exists exactly when the operation carried no new one |
| `AgentRegistry.OneRegistration` | Native/src/a2a_agent_registry.cpp:53-58 | An identifier and a revision denote one registration for ever |
| `AgentRegistry.RetiredForEver` | Native/src/a2a_agent_registry.cpp:53-69 | A retired identifier stays retired and inactive |
| `AgentRegistry.ToggleChangesFlagOnly` | Native/src/a2a_agent_registry.cpp:64-66 | Although the lock is given up between reading and writing, a toggle that publishes changes the enabled flag and nothing else |
| `AgentRegistry.EveryToggle` | Native/src/a2a_agent_registry.cpp:64-66 | In every run from the start, lost acknowledgements included, every client between its two critical sections publishes exactly on the registration it saw with the other flag, changes the flag and nothing else, and reports success without a change only where the flag is as asked for |
| `AgentRegistry.ToggleGoesThrough` | Native/src/a2a_agent_registry.cpp:64-66 | A toggle that nothing comes between is published with the flag asked for |
| `AgentRegistry.WedgedForEver` | Native/src/a2a_agent_registry.cpp:37 | A stored catalogue over the limit is never replaced |
| `AgentRegistry.FullCatalogWedges` | Native/src/a2a_agent_registry.cpp:51-59 | Registering a new agent in a full catalogue stores one |
| `DefinitionDocument.DecodedIsValid` | Native/src/agent_definitions.cpp:58-135 | Whatever the decoder accepts satisfies every rule of the catalogue |
| `DefinitionDocument.EncodedDecodes` | Native/src/agent_definitions.cpp:58-147 | The document of every valid catalogue is decoded as it was written |
| `AgentDefinitions.WrittenIsValid` | Native/src/agent_definitions.cpp:157-187 | Every catalogue that apply writes is valid and decoded as it was written |
| `AgentDefinitions.WrittenFits` | Native/src/agent_definitions.cpp:13-187 | What apply writes is at most 285817 bytes longer than the document without blanks, so a document of 256 KiB never makes one that load refuses |
| `AgentDefinitions.StoredLoads` | Native/src/agent_definitions.cpp:13-155 | A stored catalogue is loaded as it was written exactly when its text is at most 1 MiB |
| `AgentDefinitions.KeepsIffSame` | Native/src/agent_definitions.cpp:161-183 | Apply writes nothing exactly when the document describes the stored agents in the stored order |
| `AgentDefinitions.DecisionMeans` | Native/src/agent_definitions.cpp:160-186 | A document is kept exactly when it describes the stored agents in their order, and refused exactly when it names a retired agent, revises one at the last revision, retires more than 4096, or no catalogue revision is left |
| `AgentDefinitions.WrittenContents` | Native/src/agent_definitions.cpp:160-186 | Written are the agents of the document in its order, numbered one when new, as before when unchanged and one higher when changed; exactly the agents gone are retired |
| `AgentDefinitions.ReapplyKeeps` | Native/src/agent_definitions.cpp:157-187 | Applying the same document again writes nothing |
| `AgentDefinitions.EveryHistory` | Native/src/agent_definitions.cpp:157-188 | Over every sequence of apply calls an identifier and a revision denote one content, revisions never decrease, retired identifiers stay retired and never return |
| `AgentDefinitions.RacingApplies` | Native/src/agent_definitions.cpp:157-188 | After any history two calls read the same catalogue and finish one after the other: everything stored keeps what serial calls keep exactly when not both write, or the second neither contradicts an agent the first changed nor names one it retired |
| `AgentDefinitions.RacingNumbers` | Native/src/agent_definitions.cpp:157-188 | They write one number for two contents exactly when both write, both change one agent, and they disagree about it |
| `AgentDefinitions.RacingDocuments` | Native/src/agent_definitions.cpp:157-188 | Two accepted documents of one agent, applied at once to an empty store, give its revision 1 two contents |
| `AgentDefinitions.RacingRetirement` | Native/src/agent_definitions.cpp:178-186 | Where one document retires the only agent and the other revises it, the late write makes it active again |
| `AgentDefinitions.Number` | Native/src/agent_definitions.cpp:161-175 | The first loop numbers every agent by what changed, and flags exactly what is new, changed or moved |
| `AgentDefinitions.RetireGone` | Native/src/agent_definitions.cpp:176-182 | The second loop retires exactly the entries gone, in their order, within the budget |
| `AgentDefinitions.Resolve` | Native/src/agent_definitions.cpp:160-185 | The loops and flags together decide as the specification does |
| `AgentDefinitions.DefinitionStore.constructor` | Native/src/agent_definitions.cpp:150-155 | A new store holds no document |
| `AgentDefinitions.DefinitionStore.Apply` | Native/src/agent_definitions.cpp:157-188 | Refuses a text above 256 KiB, and otherwise refuses, keeps or writes as decided; the stored document changes only when written, and is then loaded as written exactly when it is within 1 MiB, which JSON text guarantees |
| `PermissionGrants.ApprovedKeeps` | Native/src/agent_permission_grants.cpp:110 | Approving a scope adds it and nothing else, and changes the catalogue exactly when it was not yet allowed |
| `PermissionGrants.ApprovedMeans` | Native/src/agent_permission_grants.cpp:110 | Each refusal of an approval is given exactly under its condition, and an approval adds one grant with its time behind those there are, or nothing when the scope is granted |
| `PermissionGrants.RevokedKeeps` | Native/src/agent_permission_grants.cpp:116-118 | Revoking takes away exactly the named grant, on the expected revision |
| `PermissionGrants.RevokedMeans` | Native/src/agent_permission_grants.cpp:116-118 | Each refusal of a revocation is given exactly under its condition, and the other grants keep their order |
| `PermissionGrants.ReplayMeans` | Native/src/agent_permission_grants.cpp:98-122 | A replayed catalogue has unique ids, at most 256 grants, and allows exactly the scopes granted and not since revoked |
| `PermissionGrants.SameRevisionSameCatalog` | Native/src/agent_permission_grants.cpp:110-118 | A revision identifies the catalogue, so a comparison cannot confuse two of them |
| `PermissionGrants.RevokeActsOnRevisionSeen` | Native/src/agent_permission_grants.cpp:114-119 | A committed revocation found exactly the catalogue its caller had seen, and the grant in it |
| `PermissionGrants.EveryRun` | Native/src/agent_permission_grants.cpp:98-122 | The catalogue is the replay of the successful operations in commit order, well formed, and allows exactly what they leave in force |
| `PermissionGrants.CommitMeans` | Native/src/repository.cpp:4264-4279 | A reply commits exactly when its operation awaits a decision, has not expired and the document is the one read; grant and operation change together or not at all |
| `PermissionGrants.RevocationMeans` | Native/src/agent_permission_grants.cpp:116-119 | A revocation commits exactly when the document is the one read, and decides no operation |
| `PermissionGrants.ReplyGoesThrough` | Native/src/agent_permission_grants.cpp:108-111 | A reply that nothing comes between grants its scope and decides its operation |
| `PermissionGrants.RevocationGoesThrough` | Native/src/agent_permission_grants.cpp:114-119 | A revocation that nothing comes between takes its grant away |
| `PermissionGrants.DecidedForEver` | Native/src/repository.cpp:4264-4279 | A decided operation stays as it was decided |
| `PermissionGrants.GivingUpMeansEightChanges` | Native/src/agent_permission_grants.cpp:110-112 | A reply that gives up after eight attempts lost to at least eight changes by others |
| `PermissionGrants.RevokeComparesOnce` | Native/src/agent_permission_grants.cpp:116-119 | A revocation that lost its comparison finds its revision stale, so its retry loop never compares twice |
| `PermissionGrants.Session.Compare` | Native/src/repository.cpp:4275 | Stores the new document exactly when the stored one is the expected one |
| `PermissionGrants.Session.Decide` | Native/src/repository.cpp:4264-4279 | One transaction tests the operation's state and expiry, then compares, and writes catalogue and operation together or neither |
| `PermissionGrants.Session.Reply` | Native/src/agent_permission_grants.cpp:110-112 | The retry loop commits grant and operation together on the document it read, or ends with the error of its last read, a decision or expiry that came first, or its eighth lost comparison |
| `PermissionGrants.Session.Revoke` | Native/src/agent_permission_grants.cpp:114-122 | The retry loop revokes on the document it read or ends with the error of its last read or comparison |
| `JsonText.UnescapeEscaped` | Native/src/agent_file_invocation.cpp:23-34 | A string escaped as RFC 8259 section 7 requires is read back, whatever follows it |
| `JsonText.ObjectParses` | Native/src/agent_file_invocation.cpp:23-39 | A written flat object is read back member by member |
| `JsonText.ObjectSize` | Native/src/agent_file_invocation.cpp:28-31 | Escaping is at most six-fold |
| `FileEnvelope.SerializedFits` | Native/src/agent_file_invocation.cpp:14-31 | Worst-case escaping of every field stays within 6 * 4 MiB + 16384 bytes |
| `FileEnvelope.RoundTrip` | Native/src/agent_file_invocation.cpp:13-52 | A call is serialized exactly when it is valid and UTF-8, and then parsing gives it back |
| `FileEnvelope.ParsedIsSerializable` | Native/src/agent_file_invocation.cpp:27-52 | Whatever is parsed is a valid call that serializes again, and parsing that gives it once more |

## Left out

- HTTP, IPC, console, tray, folder-picker, embedded Python and start-up option code.
- Hashing, random identifiers, credential encryption and authority digests.
- The database, the model gateway, the context manager, and the planning and delegation executors, beyond the contracts above.
- JSON-RPC field validation, agent-card checks and the JSON library, apart from strings, integers and flat objects.
- The process, remote, read and guidance tool hosts and the other invocation envelopes, which repeat the shapes modelled here.
- Planning calls, the unmanaged budget path and worker windows of the turn loop; the reason texts of its terminal states.
- YAML input of `apply`, whose JSON form can be longer than the text: the bound on what is written is stated for the JSON form.
- Duplicate object keys and member order of a definition document, which its parser settles before decoding.
- The 16-bit year range of the calendar library; leap seconds are refused, as in the source.
- Pause, cancellation and approval prompts inside `watch_run`, and the layout of what it prints for people.
- Recording a permission request, which stores a value once and compares it afterwards.
