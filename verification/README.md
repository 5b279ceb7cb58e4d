# OpenTTS in Dafny

A model of the parts of the OpenTTS speech daemon whose correctness spans several
functions or threads, with proofs of what they promise.  A client library sends SSIP to a
server; the server schedules messages and drives output modules over pipes; a module cuts
a message up, synthesizes and plays it, and its events travel back to the client.

`dafny verify dfyconfig.toml` checks everything.

| files | what they model |
|---|---|
| `CStrings`, `Utf8` | C strings, `strstr`, `strtol` and printed numbers; the UTF-8 coding of glib |
| `ClientText`, `SsipData`, `IndexMarking`, `MarkPlacement`, `SsmlMarking`, `OutputFraming`, `ModuleText`, `Transport`, `SsmlFraming`, `Resuming`, `SsmlResuming` | the way of a text from `spd_say` through dot-stuffing, CRLF lines, index marks and LF framing to the module, in TEXT and in SSML mode, and back to a point in it when a client resumes |
| `EventReports` | the way of an event from the module over the server to the client's callback |
| `Handshake` | the two threads of a client, over two mutexes and two condition variables |
| `Scheduler`, `SchedulerProperties`, `SchedulerRules`, `SchedulerProgress`, `SchedulerResume` | the five priority queues, the progress block, the paused list and the speaking thread |
| `Settings`, `SettingsRoundTrip` | the settings that the server prints and the module parses |
| `Chunking` | cutting a message into parts |
| `IvonaCache`, `IvonaCacheProperties` | the linked cache of waves of the Ivona module, on the heap |
| `FestivalCache`, `FestivalRequests` | the tables and the counting list of the Festival module's cache, and runs of requests through it |
| `DictionaryWords`, `DictionaryIndex` | the patterns of the dumbtts dictionary and the tree that indexes them |
| `EspeakCallback`, `EspeakQueue`, `EspeakQueueProperties`, `EspeakPlayback`, `EspeakPhases` | cutting synthesized audio at events, the queue between synthesis and playback, and stopping both |

Code that loops over buffers or changes state is modelled by methods and classes, each
proved equal to a specification function; the promises are lemmas about those functions.
Concurrent code is modelled as steps between operations on mutexes and condition variables,
and the results hold for every run.

Bytes are one `char` each, and a C string is the sequence of bytes before its NUL.  What
comes from outside is a parameter: the tests of character classes, whether a module is
speaking, which clients are paused, whether a module takes a message, the order in which
the Festival cache's sort by score leaves its list, and the events of the synthesizer.

Where the code does not do what its documentation or its callers expect, the code is
modelled as it is, and the exact condition is proved:

- An empty text arrives as a lone CRLF; every other valid text arrives as it is
  (`Transport.Say`).
- The framing to the modules turns a line `..` into `.`, and takes the second of two
  neighbouring lines `.` for the end (`OutputFraming.FramingCarries`).  In TEXT mode a
  marked text has neither (`Transport.MarkedIsFramable`).  In SSML mode it has, where no mark
  is inserted: a text arrives if and only if no line `..` is its last or begins inside a tag,
  and no two neighbouring lines `.` begin inside a tag (`SsmlFraming.SsmlArrivesIff`,
  `LastDotIsLost`, `TagIsCutShort`).
- In TEXT mode a resumed message is escaped a second time: what is heard is the text after
  the mark if and only if that has no markup characters, and its escaped form otherwise
  (`Resuming.ResumeIsHeardIff`, `ResumeSpeaksEntity`).  If the client's context leads back
  before the first mark, the opening tag is read out (`Resuming.ResumeFromStart`); if no mark
  was ever reported, so are all tags, entities and marks (`Resuming.ResumeUnreported`).
- A message queued again keeps the number of its old mark.  Paused once more before a new
  mark is reported, it loses sentences that were not heard, or is dropped for good
  (`Resuming.PausedAgain`, `SentencesLost`).
- In SSML mode a mark is found if and only if the client's text holds no equal one before it
  (`SsmlResuming.SsmlResumePoint`); what is queued again has a second dot on each line "."
  that stands in a tag or at the end (`SsmlResuming.ResumeSsmlIsHeard`).
- doc/ssip.texi has a notification give way to more important messages that only wait, and a
  new progress message to whatever is spoken.  The first holds if and only if none waits or
  another priority is being spoken (`SchedulerProperties.NotificationGivesWayIff`,
  `NotificationBesideImportant`); the second never does: the older progress messages give
  way (`SchedulerProperties.ProgressReplacesOlder`).
- The last message of a progress series is not always spoken, as doc/ssip.texi promises.
  Speaking any other message of the same block number, 0 outside blocks, makes the server
  forget the block, and so does a progress message of another number, whichever client sends
  it.  The message is then lost if it does not also wait in its own queue, or when that queue
  is dropped (`SchedulerProperties.LastProgressLostIff`, `LastProgressLost`,
  `OtherSeriesLost`).  All progress messages outside blocks count as one series, not just the
  last one.
- `STOP all` drops the block being spoken if and only if its number is 1
  (`SchedulerProperties.StopAllDropsBlockIff`, `StopAllLeavesBlock2`).
- Stripping an SSML text that holds a mark head of its own removes that too
  (`SsmlMarking.SsmlRoundTrip`).
- A wave stored without samples hides all more recent ones from a lookup
  (`IvonaCacheProperties.FoundIff`, `EmptyWaveHides`).
- The client's wait for a reply stands in no loop.  A return without a signal can make it
  read a reply that is not there if and only if nobody holds the mutex at that moment
  (`Handshake.SpuriousHarmIff`, `SpuriousReturnMissesReply`); all other results hold for runs
  with returns at other moments, too.
- `module_get_message_part` limits its tests by the index in the part, where the position
  in the message would be expected: exactly which places to break are passed over is in
  `Chunking.BreakPassedIff`, and `LaterPartDiffers` shows what that does.
- The eSpeak player can look for an entry in an empty queue.  A stop can lead there if and
  only if the player, when it is found suspended, is still to be woken for the message that
  is stopped (`EspeakQueueProperties.EmptyPopIff`, `EmptyPopRun`).

## Model

| member | source | states |
|---|---|---|
| ClientText.EscapeDot | src/api/c/libopentts.c:1476-1522 | the client's loop doubles a dot at the start of the text and after every CRLF, and changes nothing else |
| ClientText.StuffRestDoublesDots | src/api/c/libopentts.c:1476-1522 | in stuffed text every dot at the start of a line is followed by another, so no line is a lone dot |
| ClientText.StuffOnLines | src/api/c/libopentts.c:1476-1522 | the dot at the start of exactly those lines that begin with one is doubled, every text being lines with CRLF between (`ClientText.CrlfLines`) |
| SsipData.ReadLine | src/server/server.c:220-288 | the byte loop with its doubling buffer returns exactly the input up to the first CRLF, NUL bytes as question marks; nothing when there is no CRLF |
| SsipData.DeescapeDot | src/server/parse.c:1066-1126 | the copy loop undoubles dots at line starts and never writes past the length of its input, although it looks beyond the end |
| SsipData.UnstuffStuff | src/server/parse.c:1053-1126 | de-escaping undoes the client's dot-stuffing for every text (section 4.5.2 of RFC 5321) |
| SsipData.UnstuffOnLines | src/server/parse.c:1066-1126 | de-escaping takes a dot from exactly those lines that begin with two |
| SsipData.NextLineIs | src/server/server.c:220-288 | a line ends with the first CRLF and has a question mark for each NUL |
| SsipData.UnendedLine | src/server/server.c:220-288 | when the peer is gone before a CRLF, nothing is taken for data |
| SsipData.EmptyDataCancels | src/server/parse.c:160-254 | the terminator without any text cancels |
| SsipData.Socket.DataOff | src/server/server.c:208-217 | the buffer of the data phase is dropped |
| SsipData.Socket.EndData | src/server/parse.c:179-254 | the accumulated bytes, without the CRLF before a lone dot line, are canceled, rejected for their encoding or queued de-escaped |
| SsipData.Socket.Parse | src/server/parse.c:160-254 | one line in data mode: the terminator in each of its forms ends the phase, any other line is appended |
| SsipData.Socket.ServeData | src/server/server.c:220-288 | the data phase of a connection, line by line, ends with the reply and the unread input of the specification |
| SsipData.ReceiveTransparent | src/server/parse.c:160-254 | whatever text without a lone dot line is sent, the phase ends at the terminator and not before, with all of the text accumulated and nothing behind it touched |
| SsipData.StuffIsTransparent | src/api/c/libopentts.c:1476-1522 | a stuffed C string is such a text |
| IndexMarking.InsertIndexMarks | src/server/index_marking.c:40-143 | the cursor loop over UTF-8 characters equals the byte-wise specification of escaping and marking, in both modes |
| MarkPlacement.MarksStandWhereDue | src/server/index_marking.c:63-132 | in both modes the output is each character as it is written, with the next number in a mark behind it exactly where it is a full stop, question mark or exclamation mark before white space, a tag or an entity, outside tags in SSML mode; and nothing else |
| MarkPlacement.MarkFollowsIff | src/server/index_marking.c:94-126 | for any character of any text: a mark follows it if and only if it is one of the three and such a break follows |
| IndexMarking.StripIndexMarks | src/server/index_marking.c:169-220 | the cursor loop removes every mark up to its closing bracket, and in TEXT mode ends the text at the closing tag |
| IndexMarking.MarkTagUnique | src/server/index_marking.c:94-126 | a mark is found under no other number, also when one number is a prefix of the other |
| IndexMarking.FindInMarked | src/server/index_marking.c:146-166 | in marked text, the search for a number finds the mark of just that sentence end, and what it returns is the marked rest of the text |
| IndexMarking.StripMarkedText | src/server/index_marking.c:169-220 | stripping the marks of a marked text leaves the entity-escaped text |
| IndexMarking.ResumePoint | src/server/index_marking.c:146-220 | for every marked sentence end, stripping what follows its mark, found by its number in text order, gives the escaped form of exactly the text after it |
| IndexMarking.NoFurtherMarks | src/server/index_marking.c:94-126 | no number but 0 to K-1 was given out, K being the number of marked sentence ends |
| SsmlMarking.InsideTagIsVerbatim | src/server/index_marking.c:63-132 | in SSML mode what stands inside a tag is copied: no mark is inserted there |
| SsmlMarking.StripAfterMarking | src/server/index_marking.c:63-132 | in SSML mode, stripping after marking leaves what stripping alone leaves, for every text |
| SsmlMarking.SsmlRoundTrip | src/server/index_marking.c:169-220 | marking and stripping give an SSML text back behind the speak tag if and only if the text has no mark head of its own |
| OutputFraming.EscapeDot | src/server/output.c:858-924 | the cut-and-rebuild loop equals the specification that doubles lone dots, one match using up its line feed |
| OutputFraming.EscapeOnLines | src/server/output.c:858-924 | seen on lines, escape_dot doubles each line that is a lone dot unless the line before it was just doubled |
| OutputFraming.ModuleInput.OttsGetline | src/libs/common/getline.c:41-117 | one line with its line feed, or what is left at the end of the input |
| OutputFraming.ModuleInput.DoMessage | src/modules/module_utils.c:42-99 | the reading loop undoubles dots, stops at a lone dot and judges the message by its type, length and number of lines |
| OutputFraming.FramingCarries | src/modules/module_utils.c:55-74 | for every text: the module recovers it and stops exactly at the real terminator if and only if no line is '..' and no two neighbouring lines are '.' |
| OutputFraming.MessageJudged | src/modules/module_utils.c:76-99 | what the module answers to every message that is carried: what it speaks, and which of the three errors |
| OutputFraming.InputEnds | src/modules/module_utils.c:49-58 | input that ends before a terminator is an internal error, and all of it is read |
| OutputFraming.TerminatorFirst | src/modules/module_utils.c:63-74 | a terminator that comes first makes the module write outside its buffer |
| ModuleText.ModuleStripSsml | src/modules/module_utils.c:600-638 | the loop drops tags and decodes entities as specified and never writes more than it reads |
| ModuleText.StripDropsTag | src/modules/module_utils.c:600-638 | a tag without entities leaves nothing behind |
| ModuleText.StripIs | src/modules/module_utils.c:600-638 | which characters and entities are heard: entities inside tags too, other characters outside only |
| Transport.StuffValid | src/server/parse.c:196-206 | the server's encoding check accepts the stuffed text exactly if it would accept the text |
| Transport.ServerReceives | src/server/parse.c:160-254 | what the server queues for every C string: the text, or a lone CRLF for the empty one, unless it is not valid UTF-8 |
| Transport.MarkTextNoDotBeforeLf | src/server/index_marking.c:94-126 | after TEXT-mode marking no dot stands before a line feed, since such a dot always gets a mark |
| Transport.MarkedIsFramable | src/server/output.c:858-924 | so in TEXT mode every marked message is one that the framing to the module carries |
| Transport.StripMarked | src/modules/module_utils.c:600-638 | the module's markup stripper gives the queued text back from the marked message |
| Transport.Say | src/api/c/libopentts.c:289-379 | end to end, running every step: for every C string the module's text is the client's text, and it is refused exactly if it is not valid UTF-8; the empty text arrives as a lone CRLF |
| SsmlFraming.MarkedLines | src/server/index_marking.c:63-132 | in SSML mode, a line of the marked text is '.' or '..' exactly where the same line of the text is, and begins inside a tag or is the last |
| SsmlFraming.MarkedSsmlFramableIff | src/server/output.c:858-924 | a marked SSML text is one that the framing carries if and only if no line '..' of the text is its last or begins inside a tag, and no two neighbouring lines '.' begin inside a tag |
| SsmlFraming.SsmlArrivesIff | src/modules/module_utils.c:55-74 | the module recovers a marked SSML text and stops at the real terminator exactly under that condition |
| SsmlFraming.LastDotIsLost | src/server/index_marking.c:97-108 | a text whose last line loses a dot on its way |
| SsmlFraming.TagIsCutShort | src/modules/module_utils.c:55-74 | a text of which the module reads the end as its next input |
| SsmlFraming.SaySsml | src/api/c/libopentts.c:289-379 | end to end, running every step in SSML mode: a text is refused exactly if it is not valid UTF-8; otherwise it, or a lone CRLF for the empty text, reaches the module marked and whole, with nothing left over, exactly under that condition |
| Resuming.BufferedIsMarked | src/server/output.c:546 | in TEXT mode escape_dot leaves the marked buffer as it is |
| Resuming.ResumeIsHeardIff | src/server/speaking.c:356-377 | for every marked sentence end: what is recovered from the buffer is the escaped text after it, stripping that gives the text, and what is heard after the second marking is the escaped form; it is the text itself if and only if the text has no markup character |
| Resuming.StripEscapedText | src/modules/module_utils.c:600-638 | the module's markup stripper undoes the escaping of every text |
| Resuming.ResumeSpeaksEntity | src/server/speaking.c:238-242 | an input for which a resumed message is not heard as it was written |
| Resuming.ResumeFromStart | src/server/speaking.c:360-371 | with context asked for before the first mark, the whole text is queued again behind a literal opening tag and heard so, for every text |
| Resuming.ResumeUnreported | src/server/speaking.c:391-404 | when no mark was reported, the marked buffer is queued again and heard with its tags and marks, for every text |
| Resuming.PausedAgain | src/server/speaking.c:337-377 | a message paused again before its new marking reports a mark is resumed with the old number: it is dropped if fewer sentences end in the rest, and otherwise what precedes the sentence end with that number is passed over, heard or not |
| Resuming.SentencesLost | src/server/server.c:113-119 | two inputs: the middle of a message is never spoken, and the end of one |
| Resuming.NothingReloaded | src/server/speaking.c:363-367 | for a number that was never given out nothing is queued |
| SsmlResuming.FindMarked | src/server/index_marking.c:146-166 | in marked SSML text the search finds what is behind the sentence end if and only if the client's text holds no equal mark before; otherwise it finds more |
| SsmlResuming.SsmlResumePoint | src/server/speaking.c:356-371 | stripping what was found leaves the text behind the mark after an opening tag if and only if that text holds no mark head |
| SsmlResuming.NotInMarked | src/server/index_marking.c:146-166 | a number that was never given out is found if and only if the client's text holds it |
| SsmlResuming.SearchEscaped | src/server/output.c:546 | escape_dot does not change what the search finds but for the dots in it |
| SsmlResuming.StripEscapedMarks | src/server/index_marking.c:169-221 | escaping and stripping a marked text gives the text with a second dot on exactly the lines "." that got no mark |
| SsmlResuming.UndoubledIff | src/server/output.c:546 | that is the text itself if and only if no line "." stands in a tag or at the end |
| SsmlResuming.MarksUnheard | src/modules/module_utils.c:600-638 | the module's markup stripper gives the same for the marked text as for the text |
| SsmlResuming.HeardSplits | src/modules/module_utils.c:600-638 | what is heard of a text is what is heard up to a sentence end outside tags, followed by what is heard of the rest |
| SsmlResuming.ResumeSsmlIsHeard | src/server/speaking.c:356-390 | what is queued when an SSML message is resumed; where no line "." was doubled, what was heard before the pause and what is heard after it make up what would have been heard |
| Utf8.EncodeDecode | src/server/index_marking.c:63-93 | decoding a valid UTF-8 character and encoding it again copies it |
| Utf8.DecodeEncode | src/server/index_marking.c:63-93 | every code point but NUL and the surrogates has a valid encoding of one to four bytes, and decoding that gives the code point |
| Utf8.ValidIff | src/server/parse.c:190-206 | a text is valid if and only if it is the encoding of a sequence of such code points |
| CStrings.StrtolIs | src/modules/module_utils.c:152-166 | a number is read after white space and a sign up to its last digit, and none without a digit |
| CStrings.PrintReadRoundTrip | src/server/output.c:406-413 | a printed number is read back as the same number, for every integer |
| EventReports.GetReply | src/api/c/libopentts.c:1162-1204 | the loop reads lines up to one shorter than four bytes or with a blank behind its number |
| EventReports.ParamStr | src/api/c/libopentts.c:1338-1387 | the loop over the ends of lines finds the parameter, with every error code of the original |
| EventReports.HandleEvent | src/api/c/libopentts.c:1228-1279 | for every report that the server makes, just the callback that is due is made, with the ids and the mark reported; numbers above 705 call nothing back |
| EventReports.MessageIsRead | src/api/c/libopentts.c:1162-1204 | a message of several lines is read as one piece, whatever follows it, if its parts have no line feed |
| EventReports.ParamIs | src/api/c/libopentts.c:1338-1387 | every parameter of a message is found under its number, and asking for one more is an error |
| EventReports.ParamBeyond | src/api/c/libopentts.c:1338-1387 | which error there is for a number below 1 or beyond the closing line |
| EventReports.ErrorReply | src/api/c/libopentts.c:1338-1387 | a reply from 300 to 399 has no parameters; its number is the error |
| EventReports.ParamUnended | src/api/c/libopentts.c:1338-1387 | a parameter whose line does not end is none |
| EventReports.NumberParam | src/api/c/libopentts.c:1389-1410 | a parameter is read as a number exactly if nothing follows its digits; the empty one is read as 0 |
| EventReports.ErrCodeIs | src/api/c/libopentts.c:1412-1433 | the number of a reply is its first three digits, and an event's exactly if the first is a 7; without three digits there is none |
| EventReports.MarkReachesServer | src/server/output.c:683-703 | the server takes the mark that a module reports, and no byte of what follows, if and only if the mark has no line feed |
| EventReports.StateReachesServer | src/server/output.c:683-694 | each state that the module reports reaches the server as its own mark |
| EventReports.MarkReachesClient | src/server/speaking.c:646-663 | running the reading and the handling of a report: the callback gets the message id, client id and mark that the server reports, for all integers and marks without a line feed, and nothing behind the report is read |
| EventReports.StateReachesClient | src/server/speaking.c:665-687 | the same for begin, end, pause, resume and cancel events |
| EventReports.QueuedIdReachesClient | src/server/parse.c:224-230 | the id under which a message was queued is the id that spd_say reads from the reply |
| Handshake.CallerKeeps | src/api/c/libopentts.c:1057-1128 | every step of a sending thread keeps the invariant: lock owners, positions that go together, and the one reply at one place only |
| Handshake.EventsKeep | src/api/c/libopentts.c:1206-1306 | so does every step of the thread that reads the socket |
| Handshake.ExecKeeps | src/api/c/libopentts.c:1057-1306 | the invariant holds after every run of the two threads and the server |
| Handshake.NoDeadlock | src/api/c/libopentts.c:1057-1306 | no deadlock and no lost wake-up: where neither thread can go on, nothing is locked or unread and the caller waits only if the server still owes a reply |
| Handshake.SignalsArrive | src/api/c/libopentts.c:1292-1302 | in every reachable state a signal is given only while the other thread waits for it, unless that has returned from its wait without one |
| Handshake.NoRace | src/api/c/libopentts.c:1286-1296 | the shared reply is written only while the caller waits or cannot go on without the mutex, and it is there whenever the caller reads it |
| Handshake.RepliesMatch | src/api/c/libopentts.c:1057-1128 | the n-th awaited command gets the server's n-th reply, and no caller ever gets an event, in every run in which the caller's wait returns without a signal at most while the reply is being stored, whatever the other thread's wait does |
| Handshake.CallbacksInOrder | src/api/c/libopentts.c:1228-1279 | callbacks are made for the server's events in order, and for all that were read |
| Handshake.StepsAreBounded | src/api/c/libopentts.c:1057-1306 | the steps of the threads are bounded by the commands sent and the messages received: none runs in circles |
| Handshake.SpuriousHarmIff | src/api/c/libopentts.c:1086-1103 | in every reachable state in which the caller waits: a return without a signal can make it read a reply that is not there if and only if nobody holds the mutex |
| Handshake.SpuriousReturnMissesReply | src/api/c/libopentts.c:1086-1103 | a run with such a return |
| Handshake.SignalledIsTimely | src/api/c/libopentts.c:1086-1089 | a run without returns of that kind is one that the results are about |
| Scheduler.Server.EmptyQueueByTime | src/server/speaking.c:817-838 | the scan removes exactly the messages older than the bound and keeps the order of the rest |
| Scheduler.Server.StopPriorityFromUid | src/server/speaking.c:874-883 | the repeated search removes exactly the messages of a client |
| Scheduler.Server.StopPriorityExceptFirst | src/server/speaking.c:940-988 | a queue is cut down to its last message, or to the messages of that message's block |
| Scheduler.Server.ResolvePriorities | src/server/speaking.c:990-1052 | the effect of a new message on all five queues |
| Scheduler.Server.InsertMessage | src/server/server.c:144-198 | a message is appended to its queue, and a progress message also to the progress block, which is started anew unless the group is the same |
| Scheduler.Server.QueueMessage | src/server/server.c:82-205 | a client's message gets the next id and is inserted |
| Scheduler.Server.ReloadMessage | src/server/speaking.c:323-407 | a resumed message is inserted under its old id and outside any block |
| Scheduler.Server.GetMessageFromQueues | src/server/speaking.c:1054-1081 | the first message of the most important queue whose client is not paused is taken |
| Scheduler.Server.ListInsertSorted | src/server/speaking.c:201-203 | insertion before the first message that is not older |
| Scheduler.Server.TransferBlock | src/server/speaking.c:193-215 | the progress block moves to the queue of ordinary messages, and older text, notifications and progress are dropped |
| Scheduler.Server.SpeakOnce | src/server/speaking.c:187-292 | one turn of the speaking thread, whatever the module and the clients' pauses do |
| Scheduler.Server.NextResumed | src/server/speaking.c:151-166 | the first paused message whose client goes on is taken off the list, and only that one; none is taken exactly if all are held |
| Scheduler.Server.SpeakingStop | src/server/speaking.c:409-461 | the rest of the block being spoken is dropped from the end of its queue |
| Scheduler.Server.SpeakingStopAll | src/server/speaking.c:463-507 | the run of messages of block 1 at the end of the queue being spoken is dropped, if that queue ends in any block |
| Scheduler.Server.SpeakingCancel | src/server/speaking.c:509-515 | the block is stopped and all messages of the client are removed |
| Scheduler.Server.SpeakingCancelAll | src/server/speaking.c:517-527 | all queues are emptied |
| Scheduler.ReadyIsNotHeld | src/server/speaking.c:1066-1077 | the message found is the first one whose client is not paused |
| SchedulerProperties.StepKeeps | src/server/speaking.c:68-302 | every step but the reloading of a resumed message keeps the invariant on queues, progress block and spoken messages |
| SchedulerProperties.AtMostOnce | src/server/speaking.c:275-291 | in every run without RESUME no message is spoken twice, although progress messages also wait in the progress block |
| SchedulerProperties.SpokenIsGone | src/server/speaking.c:275-291 | a message that was spoken waits in no queue and not in the block |
| SchedulerProperties.AgeOrder | src/server/speaking.c:990-1052 | in every run without RESUME each queue ascends by id, text is younger than ordinary messages, progress younger than these and important ones, notifications younger than all |
| SchedulerProperties.TransferKeeps | src/server/speaking.c:193-215 | the sorted transfer of the progress block keeps that order |
| SchedulerProperties.TransferMoves | src/server/speaking.c:193-215 | the postponed progress messages become ordinary ones, older text and all notifications and progress messages are dropped, and nothing else changes |
| SchedulerProperties.DeliverKeeps | src/server/speaking.c:275-291 | a spoken message leaves no copy behind: the block that holds one is cleared |
| SchedulerProperties.BlockUniformity | src/server/speaking.c:940-988 | in every run, RESUME included, the text queue holds at most one message or the messages of one block; so does the notification queue |
| SchedulerProperties.PickIsMostImportant | src/server/speaking.c:1054-1081 | the message taken is the oldest ready one of the most important priority that has one; none is taken only if all are held back |
| SchedulerRules.TakenIsMostImportant | src/server/speaking.c:1054-1081 | by the numbers of the priorities in SSIP: no ready message of a lower number waits |
| SchedulerRules.CurrentIs | src/server/speaking.c:187-219 | which priority is current after every step |
| SchedulerRules.TurnTakes | src/server/speaking.c:217-291 | a turn takes just one message off its queue; what becomes of it by the outcome |
| SchedulerRules.ReloadRules | src/server/speaking.c:323-407 | a message queued again keeps its id, leaves its block and waits last in its queue, as a new one would |
| SchedulerRules.StopElsewhere | src/server/speaking.c:409-507 | STOP changes no queue but that of the current priority |
| SchedulerRules.CancelAllEmpties | src/server/speaking.c:517-527 | CANCEL all empties every queue and changes nothing else |
| SchedulerRules.KeptIs | src/server/speaking.c:817-988 | which messages the three ways of thinning a queue leave, in their order |
| SchedulerResume.TakePausedExact | src/server/speaking.c:151-166 | a search by RESUME takes the first message that is not held off the paused list, with the order kept; if all are held it changes nothing |
| SchedulerResume.ResumeAll | src/server/speaking.c:146-176 | the loop of RESUME takes each message that is not held once, in order, queues it again if it can be, and leaves just the held ones |
| SchedulerResume.SearchesTakeAll | src/server/speaking.c:146-176 | in runs: as many searches as the list is long leave just the held messages and take all others |
| SchedulerResume.PausedIsFound | src/server/speaking.c:585-589 | a message whose pause was confirmed is on the list until a RESUME takes it, whatever happens in between, and the first that finds its client going on does |
| SchedulerResume.HeldIsFound | src/server/speaking.c:227-236 | so is a message taken from its queue while its client was paused |
| SchedulerProperties.ImportantInOrder | doc/ssip.texi:579-591 | in every run in which nobody pauses or resumes, important messages are spoken in the order they came |
| SchedulerProperties.ArrivalRules | src/server/speaking.c:990-1052 | exactly what the five queues and the progress block are after a message has come, for every priority |
| SchedulerProperties.NotificationGivesWayIff | doc/ssip.texi:622-633 | the documented promise about notifications is kept if and only if no message of another priority waits or one is being spoken |
| SchedulerProperties.NotificationBesideImportant | doc/ssip.texi:622-633 | an important message and a notification that wait at the same time |
| SchedulerProperties.ProgressReplacesOlder | doc/ssip.texi:649-651 | against the documentation, while something is spoken a new progress message stays and all older ones are dropped |
| SchedulerProperties.DropTailExact | src/server/speaking.c:443-460 | stopping drops exactly the run of messages of the block at the end of the queue |
| SchedulerProperties.CancelIsExact | src/server/speaking.c:509-515 | CANCEL takes exactly the client's messages out of every queue |
| SchedulerProperties.BlockKeptIff | src/server/server.c:166-183 | one step: a message of the progress block stays in it, becomes an ordinary message or is spoken if and only if no other message of its block number is spoken and no progress message of another number comes |
| SchedulerProperties.LastProgressLostIff | doc/ssip.texi:649-663 | over every run without RESUME, the last progress message of a series, like any other in the block, can still be spoken, or was, if and only if no step forgets it while it no longer waits in its queue or drops it from there at once, overtakes it there once it is forgotten, or withdraws it; if none forgets it, only withdrawing loses it |
| SchedulerProperties.WaitingLostIff | doc/ssip.texi:577-605 | over every run without RESUME, a waiting important or ordinary message is lost if and only if it is cancelled, stopped with its block or refused by the module |
| SchedulerProperties.LostIff | src/server/speaking.c:187-292 | the same for any important, ordinary or progress message, from any state of the invariant |
| SchedulerProperties.StopAllDropsBlockIff | src/server/speaking.c:489-505 | STOP all drops the block at the end of the queue being spoken if and only if its number is 1; otherwise it leaves the queue as it is |
| SchedulerProperties.StopAllLeavesBlock2 | src/server/speaking.c:489-505 | a run in which a block goes on after STOP all |
| SchedulerProperties.LastProgressLost | doc/ssip.texi:649-663 | a run in which the last progress message is never spoken, against the documented promise |
| SchedulerProperties.OtherSeriesLost | src/server/server.c:170-177 | a run in which the only message of one series is lost to a message of another client's series |
| SchedulerProgress.TurnsDrain | src/server/speaking.c:187-292 | with nothing arriving and nobody paused or refused, as many turns as messages wait, those of the progress block counted twice, empty all queues |
| SchedulerProgress.WaitingIsSpoken | doc/ssip.texi:577-605 | after any run without RESUME, a waiting important or ordinary message is spoken within that many turns |
| SchedulerProgress.LastProgressIsSpoken | doc/ssip.texi:649-663 | so is the last message of a progress series, like any other in the block, if and only if the turns do not lose it; and always if they do not forget it |
| SchedulerProperties.Play | src/server/speaking.c:68-302 | the methods of the server, called in any order, go through exactly the states that these results are about |
| IvonaCache.Cache.constructor | src/modules/ivona_client.c:391-405 | 256 unused nodes and an empty chain between the sentinels |
| IvonaCache.Cache.ToHead | src/modules/ivona_client.c:407-417 | relinking in place moves the node to the end of the chain, all links consistent both ways, and touches no unused node |
| IvonaCache.Cache.FindMinCount | src/modules/ivona_client.c:419-439 | walking the links finds the entry to replace and ages the counts, as the list specification has it |
| IvonaCache.Cache.StoreWave | src/modules/ivona_client.c:441-462 | storing on the heap refines the list specification; the chain is exactly the used nodes, each once, at most 256; the wave is copied |
| IvonaCache.Cache.GetWave | src/modules/ivona_client.c:464-482 | looking up on the heap refines the list specification and returns a fresh copy of the wave |
| IvonaCacheProperties.LeastCount | src/modules/ivona_client.c:419-432 | the first loop finds an entry of the smallest count, the least recently used of several, and none only if no count is below the largest int |
| IvonaCacheProperties.EvictsLeastUsed | src/modules/ivona_client.c:419-461 | a store into a full cache replaces an entry of the smallest count, the least recently used of these; each other entry before the first without samples has max(1, count - 1), those behind it are unchanged, and the order is kept |
| IvonaCacheProperties.RunAges | src/modules/ivona_client.c:433-438 | over every run of requests for other texts, an entry with count c that is still cached has max(1, c - n) after n evictions |
| IvonaCacheProperties.LongTexts | src/modules/ivona_client.c:445-468 | a text of more than eleven bytes is neither looked up nor stored |
| IvonaCacheProperties.OperationsKeepBounds | src/modules/ivona_client.c:441-482 | counts stay positive and entries at most 256 |
| IvonaCacheProperties.HitIsMostRecent | src/modules/ivona_client.c:473-478 | a hit is counted and becomes the most recently used; the others keep their order |
| IvonaCacheProperties.FoundIff | src/modules/ivona_client.c:469-480 | a key is found exactly if an entry before the first one without samples has it |
| IvonaCacheProperties.EmptyWaveHides | src/modules/ivona_client.c:469-480 | a wave stored without samples hides one that is stored after it |
| IvonaCacheProperties.LookupRefines | src/modules/ivona_client.c:464-482 | with waves stored only after a miss, a lookup finds the wave last stored for the key, exactly if it is still cached |
| IvonaCacheProperties.StoreRefines | src/modules/ivona_client.c:441-462 | a store after a miss gives the key this wave and no other key another one |
| IvonaCacheProperties.RunRefines | src/modules/ivona.c:378-396 | after every run of requests the cache holds waves last stored for their texts only |
| IvonaCacheProperties.RunCounts | src/modules/ivona_client.c:441-482 | in every run of requests at most 256 entries are kept, with counts between 1 and the number of requests |
| IvonaCacheProperties.RunEvictsLeastUsed | src/modules/ivona_client.c:419-461 | after every run of requests, a new text for a full cache replaces the least used of all entries, the least recently used among several; the others keep order and contents and lose at most one from their counts |
| IvonaCacheProperties.Play | src/modules/ivona.c:320-396 | the module's use of the cache plays the wave last stored for a text that is cached, and the new one otherwise |
| FestivalCache.JoinedInjective | src/modules/festival.c:1020-1022 | a number at the end of a table key can be told from what stands before it, even if that ends in numbers and underscores |
| FestivalCache.SameTableIff | src/modules/festival.c:988-1025 | two requests share a table if and only if they agree in type, language and the parameters that the configuration tells apart |
| FestivalCache.HasTableIff | src/modules/festival.c:988-1025 | which requests have a table, and its key |
| FestivalCache.SumSorted | src/modules/festival.c:953-954 | sorting the list does not change the sum of the sizes |
| FestivalCache.RoomLeft | src/modules/festival.c:941-985 | after cleaning, the new entry fits within the limit or will be the only one |
| FestivalCache.LeftIsLongest | src/modules/festival.c:958-982 | no entry leaves without need: one more would not have fitted |
| FestivalCache.Cache.constructor | src/modules/festival.c:871-884 | an empty cache of size 0 |
| FestivalCache.Cache.CacheClean | src/modules/festival.c:941-985 | entries leave from the end of the sorted list until there is room; list and tables stay in bijection and the size stays the sum, so it never underflows |
| FestivalCache.Cache.CacheInsert | src/modules/festival.c:1028-1087 | a new wave is kept under its table and key beside exactly the entries that cleaning left, and counted once; of a known one nothing changes but its count, which goes up by one; all other counts stay; size within the limit or a single entry |
| FestivalCache.Cache.CacheLookup | src/modules/festival.c:1090-1126 | a lookup returns the wave of its table and key, if any, and counts just that entry once more |
| FestivalRequests.MadeIff | src/modules/festival.c:1090-1126 | what the cache should remember for a table and text: the wave of the last request for which one was synthesized, and the number of requests for it since |
| FestivalRequests.Speak | src/modules/festival.c:588-735 | a request plays the cached wave or the synthesized one, and keeps the cache at what it should remember, waves and counts |
| FestivalRequests.Play | src/modules/festival.c:564-764 | over every run of requests, with any order that the sorts leave, whatever is played is the wave last synthesized for a request with the same table and text |
| Settings.OutputSendSettings | src/server/output.c:398-437 | the nine settings are printed line by line and terminated |
| Settings.Module.SetNumericParameter | src/modules/module_utils.c:152-166 | a number is stored if it is one and in range, and refused otherwise |
| Settings.Module.SetItem | src/modules/module_utils.c:203-265 | each item is stored in its own field or refused with its own error |
| Settings.Module.DoSet | src/modules/module_utils.c:168-273 | the reading loop with strtok and its error status |
| SettingsRoundTrip.VoiceRoundTrip | src/libs/common/fdsetconv.c:36-94 | a voice type is read back from its name, and any other number as no voice |
| SettingsRoundTrip.PunctRoundTrip | src/libs/common/fdsetconv.c:96-131 | a punctuation mode is read back from its name exactly if it is one |
| SettingsRoundTrip.SpellRoundTrip | src/libs/common/fdsetconv.c:133-163 | the same for the spelling mode |
| SettingsRoundTrip.RecognRoundTrip | src/libs/common/fdsetconv.c:165-200 | the same for the treatment of capital letters |
| SettingsRoundTrip.ReadPrinted | src/modules/module_utils.c:183-267 | one printed line is taken apart by strtok into its item and value |
| SettingsRoundTrip.StoreIff | src/modules/module_utils.c:203-265 | one item arrives as it was exactly if it can be carried |
| SettingsRoundTrip.NumberOfAny | src/modules/module_utils.c:152-166 | what is stored for a number of any size: it is cut to a long and then to its lowest 32 bits |
| SettingsRoundTrip.NoNumber | src/modules/module_utils.c:152-166 | text without a number is a bad item |
| SettingsRoundTrip.Refused | src/modules/module_utils.c:203-265 | a refused value changes nothing; just the known names of modes are accepted |
| SettingsRoundTrip.UnknownItem | src/modules/module_utils.c:203-265 | a line with another name than the nine is a bad item |
| SettingsRoundTrip.StrtokIs | src/modules/module_utils.c:183-202 | a token is what stands between delimiters; all before it are passed, and one behind it |
| SettingsRoundTrip.NoName | src/modules/module_utils.c:183-202 | a line without a name or an equals sign is bad syntax |
| SettingsRoundTrip.FirstErrorStays | src/modules/module_utils.c:168-273 | after an error nothing more is stored up to the terminator |
| SettingsRoundTrip.RoundTrip | src/modules/module_utils.c:168-273 | the module answers OK and has identical settings in all nine fields if and only if numbers are in range, modes and voice known, and names absent or neither empty nor 'NULL' nor with a line feed; nothing behind the settings is read |
| SettingsRoundTrip.Exchange | src/server/output.c:398-437 | the same, by running both sides |
| Chunking.GetMessagePart | src/modules/module_utils.c:509-576 | the part is the stretch of the message up to where the specification ends it, as a C string in the caller's array; -1 only at the end |
| Chunking.PartEndIsFirst | src/modules/module_utils.c:529-570 | a part ends at the first place the tests accept, or when it is full, or with the message |
| Chunking.ShortPartEndsAtBreak | src/modules/module_utils.c:543-568 | a part that is neither full nor last ends at a divider before white space or at an empty line |
| Chunking.BreakPassedIff | src/modules/module_utils.c:543-568 | exactly which places to break a part goes past: with two bytes of the length left behind the index in the part, or with four if the place is an empty line of CRLFs |
| Chunking.LaterPartDiffers | src/modules/module_utils.c:543-568 | a text that is cut as a later part and not as a message of its own |
| Chunking.PartsJoin | src/modules/module_utils.c:509-576 | the parts are not empty, not too long, and join to the message |
| Chunking.SpeakParts | src/modules/module_utils.c:747-760 | a module's loop terminates having spoken exactly the message |
| EspeakCallback.Synthesis.SendAudioUpto | src/modules/espeak.c:842-854 | the samples up to a position are queued, once |
| EspeakCallback.Synthesis.SynthCallback | src/modules/espeak.c:856-926 | without a stop, the loop over events queues exactly the entries of the specification and counts the samples of the message |
| EspeakCallback.PartitionIff | src/modules/espeak.c:842-926 | every audio entry is as long as it claims if and only if the clamped positions do not go back; then the entries concatenate to exactly the synthesized audio |
| EspeakCallback.PositionsOrder | src/modules/espeak.c:884-896 | events in order of their positions meet that condition |
| EspeakCallback.MarksArePlaced | src/modules/espeak.c:884-909 | each mark is queued after exactly the clamped number of samples that its position calls for |
| EspeakCallback.CountQueued | src/modules/espeak.c:842-926 | a call queues as many samples as it got, whatever its events |
| EspeakCallback.MessageAudio | src/modules/espeak.c:856-926 | over any sequence of calls with ordered events, the audio entries concatenate to the audio of the message |
| EspeakCallback.MessageMarks | src/modules/espeak.c:856-926 | in a whole message each mark has its place in the samples of the message |
| EspeakCallback.MarkSpots | src/modules/espeak.c:884-896 | in arithmetic: the mark at position p comes after p * rate / 1000 samples of the message, or at the start or the end of the call that reports it if that has not these |
| EspeakCallback.MessageFlags | src/modules/espeak.c:897-915 | all marks, icons and ends that eSpeak reports are queued, in their order |
| EspeakCallback.Synthesize | src/modules/espeak.c:856-926 | the same by running the callback from the start of a message |
| EspeakQueue.NextKeeps | src/modules/espeak.c:856-1002 | every step of the threads, of the server's commands and of eSpeak keeps the invariant of the queue, the semaphores and the state |
| EspeakQueueProperties.QueueAccounts | src/modules/espeak.c:942-1002 | in every run the size is the samples queued, exceeds the limit by at most the chunk added last, and entries leave in the order they came |
| EspeakQueueProperties.NeverBothWait | src/modules/espeak.c:942-988 | in no reachable state do producer and consumer both wait, and each waits only with reason |
| EspeakQueueProperties.BeginOnce | src/modules/espeak.c:1170-1183 | a begin is reported at most once for each message, in their order |
| EspeakQueueProperties.RoomIsMade | src/modules/espeak.c:978-990 | whenever the synthesis waits for room, the player runs or has been posted, or a stop is requested whose broadcast is still to come |
| EspeakQueueProperties.NoDeadlock | src/modules/espeak.c:557-631 | where no thread can go on, apart from an empty pop: nothing is locked, no stop is left undone, and the player waits for the next entry or, if no message has begun, for the next message |
| EspeakQueueProperties.EmptyPopStep | src/modules/espeak.c:942-960 | the only step that leads to an empty pop is the reset of a stop between the two tests of the player |
| EspeakQueueProperties.EmptyPopIff | src/modules/espeak.c:591-617 | in every reachable state in which the stopping thread finds the player suspended: an empty pop can follow in this stop if and only if the message has not begun, its begin is being reported, or the post for the player was not yet taken or only just |
| EspeakQueueProperties.EmptyPopRun | src/modules/espeak.c:863-872 | a run that ends so, with the begin posted after the busy test |
| EspeakPlayback.PlayedInOrder | src/modules/espeak.c:942-1002 | in every run without a stop or a pause, the entries taken by the player are the first of those that the callbacks added; the others wait in the queue or are about to be pushed |
| EspeakPlayback.PlayedOfMessage | src/modules/espeak.c:1057-1185 | in every run, with any stops and pauses, the entries taken while a message is spoken are the first of those that the callbacks added for that very message; unless it is being stopped, the others wait |
| EspeakPlayback.PlayedOfMessageIsSynthesized | src/modules/espeak.c:842-1002 | so with ordered events, the samples taken for a message are the first of its own synthesized audio |
| EspeakPlayback.StopIsObeyed | src/modules/espeak.c:455-473 | once a stop was accepted, nothing more is played of the message, whatever happens |
| EspeakPlayback.PauseIsObeyed | src/modules/espeak.c:1140-1166 | nor after a mark of the server at which a pause was asked for |
| EspeakPhases.MarkPausesIff | src/modules/espeak.c:1140-1166 | exactly at which marks the playing is paused |
| EspeakPhases.PauseWasAsked | src/modules/espeak.c:475-485 | in every run, a message is paused at a mark only if a pause was asked for since it was accepted |
| EspeakPhases.RequestPauseIff | src/modules/espeak.c:475-485 | when a request for a pause is recorded |
| EspeakPhases.MessagesAreFramed | src/modules/espeak.c:1170-1200 | in every run, nothing of a message is played before its begin was reported, and after its end was played the module becomes idle |
| EspeakPhases.EndIs | src/modules/espeak.c:1184-1210 | what the end of a message changes |
| EspeakPhases.WokenPlayer | src/modules/espeak.c:1112-1128 | the player, woken, looks for an entry exactly if a message has begun |
| EspeakPlayback.PlayedIsSynthesized | src/modules/espeak.c:842-1002 | with ordered events, the samples taken are the first of the synthesized audio of all messages, and all of it when all was added and nothing waits |
| DictionaryWords.DicCompareWord | src/libs/dumbtts/libdumbtts_dic.c:139-289 | the scanning loops decide a match as the recursive specification does, and stop at the same place |
| DictionaryWords.PassGroup | src/libs/dumbtts/libdumbtts_dic.c:221-256 | the loops over the alternatives of a group |
| DictionaryWords.PassClass | src/libs/dumbtts/libdumbtts_dic.c:189-208 | the loop over a character class |
| DictionaryWords.ClassIff | src/libs/dumbtts/libdumbtts_dic.c:189-208 | a class matches if and only if it is closed and a character before the first closing bracket is that of the text, or its lower case for a lower case letter; the pattern goes on behind the bracket |
| DictionaryWords.GroupIff | src/libs/dumbtts/libdumbtts_dic.c:222-259 | a group matches if and only if one of its alternatives stands at the head of the text; the first counts, and the pattern goes on behind the group |
| DictionaryWords.GroupSplits | src/libs/dumbtts/libdumbtts_dic.c:222-259 | every closed group has such alternatives |
| DictionaryWords.OpenGroup | src/libs/dumbtts/libdumbtts_dic.c:222-259 | a group that is not closed matches nothing |
| DictionaryWords.SkipSpacesIs | src/libs/dumbtts/libdumbtts_dic.c:169-188 | white space is passed up to the first other character |
| DictionaryWords.MatchStep | src/libs/dumbtts/libdumbtts_dic.c:160-222 | what each character of a pattern matches |
| DictionaryWords.MatchEndsWord | src/libs/dumbtts/libdumbtts_dic.c:161-166 | a match ends inside the text, where a word ends |
| DictionaryWords.LiteralMatch | src/libs/dumbtts/libdumbtts_dic.c:214-219 | a pattern without special characters matches exactly the words that begin with it, in either case for its lower case letters, and end there |
| DictionaryWords.CompareLiteral | src/libs/dumbtts/libdumbtts_dic.c:130-168 | so do whole patterns, with the character that was read before |
| DictionaryWords.ComparedPath | src/libs/dumbtts/libdumbtts_dic.c:139-219 | a matching pattern leads the same way through the index as the text, as far as its letters go |
| DictionaryIndex.Dictionary.GetDiction | src/libs/dumbtts/libdumbtts_dic.c:28-60 | the tree grows by the nodes of a pattern's letters, links and parents consistent, and holds the pattern at their end, before the older ones |
| DictionaryIndex.Dictionary.FindMatDic | src/libs/dumbtts/libdumbtts_dic.c:292-305 | the deepest node on the way of a word is found |
| DictionaryIndex.Dictionary.GetDict | src/libs/dumbtts/libdumbtts_dic.c:308-333 | the walk up the parents terminates, and a word is found if and only if some stored pattern matches it |
| DictionaryIndex.FirstMatchIff | src/libs/dumbtts/libdumbtts_dic.c:308-320 | the scan of one list finds a match exactly if there is one |
| DictionaryIndex.LookupFinds | src/libs/dumbtts/libdumbtts_dic.c:321-331 | the pattern found matches, and no pattern with a longer head of letters does |
| DictionaryIndex.FoundIff | src/libs/dumbtts/libdumbtts_dic.c:308-333 | the tree agrees with a linear scan of all patterns |
| DictionaryIndex.Dictionary.LoadDictionary | src/libs/dumbtts/libdumbtts_dic.c:62-135 | the entries of a file are kept, numbers in a list and words in the tree, the latest first |
| DictionaryIndex.LookUp | src/libs/dumbtts/libdumbtts_dic.c:308-333 | on a loaded file: nothing is found exactly if no entry of the kind matches; otherwise the entry with the longest head of letters and digits, the last in the file of several, or the last one at all for a number |

## Left out

- Sockets, pipes, processes, signals, configuration, logging, translation and memory
  management: input and output are sequences of bytes, and allocation succeeds.
- OutputFraming.ModuleInput.OttsGetline: where plain char is signed, the C code takes a byte
  0xFF for the end of its input; it does not occur in valid UTF-8, and the model reads it
  like any other byte.
- Counters are unbounded: message ids, use counts of cache entries, the samples of an
  eSpeak message and the sizes of caches do not wrap around.  Numbers read from settings
  do, as in the C code.
- The sources of `g_unichar_isspace` and of the character tables of dumbtts: only that a
  line feed is white space and a full stop is not, and the facts of `DictionaryWords.Sane`, are used.
- The settings of a client that is gone when its message is resumed, and the encoding of a
  resumed text, which is a part of a valid one.
- The connection of a client that breaks, replies of length 0, and the mode without a
  second thread, in the handshake.
- Scheduler: messages spoken again after RESUME, races of a pause with the end of a
  message, the history, and the stop and cancel reports sent on the way.  A resumed message
  may be any message, of any priority.  Client ids are not 0.
- What the eSpeak callback has queued at the moment it notices a stop, the order of END and
  STOP events, closing the module, and a failing `espeak_Synth`, after which the mutex of the
  state stays locked.  eSpeak is taken to report the end of a message once and last.
- The negative lengths that unordered events produce (`EspeakCallback.PartitionIff`) do not
  enter the queue of `EspeakQueue`.
- Resuming: a client that changes its SSML mode while a message is paused, and, in SSML mode,
  the parsers of synthesizers that do not strip markup.
- Float scores of Festival cache entries: the list may be sorted in any way.  Entries
  removed from a table are not freed by the code either.
- FestivalCache.Cache.CacheInsert: requires a table for the request, because the C code
  would look up a null key without a language; the module calls it for characters, keys and
  sound icons only.
- The replacement text that a dictionary match produces, and taking apart the lines of a
  dictionary file.
- Audio output, the other synthesizers, option parsing and the mapping of parameter ranges.
