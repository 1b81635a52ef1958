# qrelay: a verified model

qrelay takes one QMQP submission per connection, lets a Lua handler edit the mail and pick an
action, relays the mail, and answers with exactly one QMQP response. This project models that
path in Dafny 4.11 and proves what it is for. `dafny verify dfyconfig.toml` checks everything.

| file | models |
|---|---|
| `Base.dfy`, `Decimal.dfy` | byte strings, concatenation, 64-bit decimal numbers as text |
| `Netstring.dfy` | `src/djb/NetstringParser.cxx` |
| `QmqpMail.dfy` | `src/djb/QmqpMail.cxx` |
| `Mail.dfy` | the mail object of `src/LMail.cxx`, `src/MutableMail.cxx`, `src/MutableMail.hxx` |
| `HeaderText.dfy` | how RFC 2822 reads a message into fields and body; the whitespace strip |
| `BasicRelay.dfy` | `src/BasicRelay.cxx` and the header assembly of `src/Connection.cxx` |
| `Delivery.dfy` | what relaying means, over one hop and over many |
| `ExitStatus.dfy` | `src/ExitStatus.hxx` |
| `RawExecRelay.dfy`, `ExecRelay.dfy`, `RemoteRelay.dfy` | the three relays, each with its environment |
| `Action.dfy` | building exec actions in `src/LMail.cxx` |
| `Connection.dfy` | `src/Connection.cxx` |
| `System.dfy` | one connection with handler and relay, over whole runs |
| `Answers.dfy` | the response, the log record and the timer, by what caused them, over whole runs |

What the source changes in place is a class here (`QmqpMail`, `IncomingMail`, `BasicRelay`,
`ExecRelay`, `RawExecRelay`, `ActionBuilder`, `QmqpRelayConnection`); each method is proved
against a function of the old state, and the theorems are about runs of these functions.

The main theorems:

* **Parsing.** `ParseSucceedsIff` and `ParseResultIff` say exactly which payloads are accepted and
  which of the three errors every other payload gets. `TailIsCanonicalIff` says when the
  zero-copy recipient slice is the canonical re-encoding: exactly when the address check
  refuses the empty string.
* **Delivery.** `RelayMeaning`: parsing the relayed bytes gives the inserted headers, `Received`,
  the stripped message, the current sender and the same recipients. `MultiHop` carries this
  through any number of hops. `ReaderSees` says what a mail reader makes of the relayed message:
  exactly the (name, value) pairs the handler inserted, newest first, then `Received`, then
  exactly the fields and the body of the stripped original (`HeaderIsolation` for any number
  of hops), and `StripTransparentIff` that the strip keeps the meaning of exactly the messages without leading whitespace.
* **Relays.** The raw relay gives one answer; in a run without I/O errors it is a function of the
  child's whole output and its exit status (`OneAnswer`, `OrderIndependent`), and every such
  answer is reached (`ExpectedIsReached`). Errors of later writes can change the answer unless
  the first write took the whole request, and then they cannot (`DeterminedIff`). It never
  gets stuck (`NeverStuck`, `EveryRunAnswers`). The QMQP child relay is order-independent
  exactly when the client got a reply or the child succeeded (`OrderIndependentIff`).
* **Whole runs.** `AcceptanceSafety`, `LifeCycle`, `AssertsHold`, `LogOnce`, `WhatIsRelayed` and
  `EveryRunAnswers` hold in every run of a connection with its handler, its relay and its timer:
  a success is never made up, no assertion fails although events are restricted only by the
  state of the parts they come from, runs are bounded, and a run in which nothing awaited is
  left has given exactly one response, unless the client's side ended it.

* **Answers.** `ResponseByCause` gives the response of every run in the texts of the protocol, from
  the event that ended it; `RefusedWithReason` gives it for payloads that are no mail,
  `RepliesForwarded` for the replies of servers and programs, `EndingDecides` and
  `StatusResponseIs` for every way a program can end. `LogRecordIs` gives the whole log record.
* **Actions.** `NewExecIff` says which calls build an exec action and which arguments, variables and
  timeout it then has; `TimerIff` says when the timer runs.

## Assumptions about the surroundings

* A byte is a `char`. The laws hold for every `char`, in particular for the 256 byte values.
* Strings are at most 2^64-1 bytes long. Where a theorem is about strings qrelay puts together, this
  is a precondition (`Fits`, `SendersFit`).
* `VerifyEmailAddress` is an arbitrary predicate `verify`. The whitespace set of `StripLeft` is an
  arbitrary predicate `ws` that holds for SP, HT, CR and LF and for no visible ASCII character.
* `ParseIntegerTo` reads a whole string as unsigned decimal and fails above 2^64-1.
* The netstring generator puts a length header in front of a list and a comma behind it; the
  netstring client adds one such frame and calls back exactly once. A reply that is the empty
  string is different from no reply.
* A connection that is gone has taken its socket, its timer, its handler's coroutine and its relay with
  it, so nothing happens to it any more. The server passes on one request.
* `SendResponse` returns true, or has run `OnError` and returns false.
* A pipe read returns some nonempty part of what is there; with a hangup, everything that fits. A
  bare hangup means that nothing is left. In runs, a failed read carries no hangup
  (`NotifiesTwiceIff` shows the one situation this excludes).
* A callback made from within `Resume` or a relay's `Start` is made in tail position in the source,
  so it is the same as the callback right afterwards.
* The relay's handler callback is the list of notifications a method returns; after the first one
  the connection is gone, so runs end there.

## Where comments and code differ

* `src/djb/QmqpMail.hxx` describes the tail as including the message's trailing comma. It is the
  sender's (`src/djb/QmqpMail.cxx:36`), and that is what the model has.
* In `src/ExecRelay.cxx` the comment about postponing a response stands in the branch that does not
  postpone it. The model follows the code.
* Length headers with leading zeroes are refused for nonempty strings only, so `00:,` is accepted.
  `EncodesIff` gives the accepted language exactly.

## Model

| member | source | states |
|---|---|---|
| Decimal.TextOfValue | src/djb/NetstringParser.cxx:18-24 | a digit string without leading zero is the only canonical text of its value |
| Decimal.ValueOfText | src/djb/NetstringParser.cxx:18-20 | reading a printed length gives the length back |
| Decimal.ValueIsPositional | src/djb/NetstringParser.cxx:18-20 | the number read from left to right is the sum of the digits times their powers of ten |
| Netstring.EncodesIff | src/djb/NetstringParser.cxx:18-27 | the accepted language: the canonical encoding, and for the empty string one or more zeroes |
| Netstring.NextIff | src/djb/NetstringParser.cxx:14-30 | the parser finds (value, rest) exactly when the input is an accepted encoding of value followed by rest, so there is one way to read it |
| Netstring.NextFailsIff | src/djb/NetstringParser.cxx:14-27 | the parser fails exactly when no prefix of the input is a netstring |
| Netstring.NextInvertsEncode | src/djb/NetstringParser.cxx:9-31 | parsing an encoded string followed by anything gives the string and what follows |
| Netstring.ParseNetstring | src/djb/NetstringParser.cxx:9-31 | the in/out parser advances past a nonempty prefix on success and leaves its input alone on failure, with all 64-bit arithmetic in range |
| QmqpMailModel.ParseSucceedsIff | src/djb/QmqpMail.cxx:16-53 | success with given fields exactly for encodings of a message, a verified sender and 1 to 1024 verified recipients |
| QmqpMailModel.ParseResultIff | src/djb/QmqpMail.cxx:21-52 | each result exactly when the payload has the matching reason: how far it is good and what is wrong first |
| QmqpMailModel.ReasonDecides | src/djb/QmqpMail.cxx:21-52 | a reason determines the result and, on success, all fields |
| QmqpMailModel.FindReason | src/djb/QmqpMail.cxx:21-52 | every payload has a reason for one of the four results |
| QmqpMailModel.TailSlice | src/djb/QmqpMail.cxx:36 | one byte before the recipients is the sender's comma |
| QmqpMailModel.TailIsCanonical | src/djb/QmqpMail.cxx:36-50 | if the empty address is refused, the tail is a comma and the recipients encoded one by one |
| QmqpMailModel.TailIsCanonicalIff | src/djb/QmqpMail.cxx:36-50 | the tail is canonical for all payloads exactly if the empty address is refused |
| QmqpMailModel.EmptyAddresses | src/djb/QmqpMail.cxx:38-50 | an address check that accepts the empty string lets every spelling of it into the tail |
| QmqpMailModel.QmqpMail.Parse | src/djb/QmqpMail.cxx:16-53 | result and all fields, also after a failure, are those of the recursive left-to-right parse |
| QmqpMailModel.QmqpMail.ParseAllRecipients | src/djb/QmqpMail.cxx:38-50 | the do-while loop over the recipients computes the recursive one |
| MailModel.EditsAchieve | src/LMail.cxx:129-152 | after any attempted edits: the first sixteen valid insertions newest first, the last verified sender, the last good account, everything else unchanged |
| MailModel.SenderStaysVerified | src/LMail.cxx:397-403 | the sender remains a verified address under any edits |
| MailModel.HeadersAreValid | src/LMail.cxx:92-141 | every header line the handler got into a mail is a name of visible ASCII without colon, a colon, a space and a printable value |
| MailModel.RefusalIff | src/LMail.cxx:92-152 | which names and values are accepted, by their characters, which edits are refused, and with which error |
| MailModel.IncomingMail.Parse | src/MutableMail.hxx:58-60 | parsing the buffer fills the envelope and nothing else |
| MailModel.IncomingMail.PushHeader | src/MutableMail.cxx:11-15 | a header line goes in front of all others |
| MailModel.IncomingMail.InsertHeader | src/LMail.cxx:129-152 | which insertions are refused and why, and the whole new state |
| MailModel.IncomingMail.SetSender | src/LMail.cxx:386-403 | a sender is assigned exactly if it is verified, and nothing else changes |
| MailModel.IncomingMail.SetAccount | src/LMail.cxx:404-415 | nil clears the account, the empty string is refused |
| MailModel.IncomingMail.Close | src/LMail.cxx:79-83 | closing frees everything and makes the object stale |
| HeaderText.ReadLineIff | src/MutableMail.cxx:11-15 | a line in front of a message is one more field exactly when the message does not start like a continuation |
| HeaderText.ReadLines | src/Connection.cxx:194-210 | any number of plain lines in front of a message are exactly that many fields more |
| HeaderText.StripTransparentIff | src/Connection.cxx:97-99 | the strip keeps fields and body of exactly the messages without leading whitespace |
| HeaderText.SplitAtName | src/LMail.cxx:95-99 | a field splits at the first colon into the name and the value |
| BasicRelayModel.ReceivedFits | src/Connection.cxx:202-207 | the formatted line fits its 256-byte buffer for all 32-bit ids |
| BasicRelayModel.ReceivedSays | src/Connection.cxx:202-207 | the line is a Received field with the process id and the user id of the client as decimal numbers, each in its place |
| BasicRelayModel.ReceivedIdentifies | src/Connection.cxx:202-207 | different clients give different lines |
| BasicRelayModel.FramedIsNetstring | src/BasicRelay.cxx:21 | header, list and comma together are the netstring of the list's bytes |
| BasicRelayModel.FragmentsAreWire | src/BasicRelay.cxx:12-26 | the request fragments together are the new message, the sender and the tail slice |
| BasicRelayModel.WireReparses | src/BasicRelay.cxx:19-24 | splicing the tail behind a new message and verified sender parses to these and the old recipients |
| BasicRelayModel.ReplyOutcomeIs | src/BasicRelay.cxx:28-46 | a reply that starts with K, D or Z is passed on as it is, any other one is a temporary error |
| BasicRelayModel.BasicRelay.constructor | src/BasicRelay.cxx:12-26 | the list built in place is the request's fragments |
| BasicRelayModel.BasicRelay.Generate | src/BasicRelay.cxx:21 | the generator frames the list with the right total |
| BasicRelayModel.BasicRelay.OnNetstringResponse | src/BasicRelay.cxx:36-46 | an invalid reply becomes a temporary error, a valid one is passed on |
| Delivery.RelayMeaning | src/BasicRelay.cxx:19-24 | end to end: the relayed bytes parse to added fields, stripped message, current sender and the same recipients |
| Delivery.RelayRefuses | src/Connection.cxx:77-93 | nothing is relayed exactly for payloads that are not a mail |
| Delivery.MultiHop | src/Connection.cxx:97-99 | after any hops: all added fields newest first, the once-stripped original, the last sender, the original recipients and tail |
| Delivery.PlainHops | src/Connection.cxx:194-210 | k hops without edits add k Received lines and keep the sender |
| Delivery.RelayedIsStripped | src/Connection.cxx:97-99 | what a hop relays is a fixed point of the next hop's strip |
| Delivery.AddedBytes | src/Connection.cxx:194-210 | the bytes put in front of the message are the added fields as lines |
| Delivery.AddedFieldsArePlain | src/LMail.cxx:95-127 | every added field is one line, without CR, that is no continuation |
| Delivery.HeaderIsolation | src/Connection.cxx:97-99 | a reader finds exactly the added fields, then exactly the fields and body of the stripped original |
| Delivery.InsertedPairs | src/MutableMail.cxx:11-15 | the inserted fields carry the handler's (name, value) pairs, newest first |
| Delivery.ReaderSees | src/Connection.cxx:97-99 | what a mail reader finds in the relayed message: the inserted pairs newest first, then Received with process and user id, then exactly the fields and body of the stripped original |
| Delivery.FrameRoundTrip | src/BasicRelay.cxx:12-26 | the outer frame gives the request back to the next server |
| Delivery.FragmentBound | src/LMail.cxx:46-53 | at most 23 fragments, 25 with the frame, 18 for a raw program, whatever the handler and the recipients |
| ExitStatus.EndingDecides | src/ExitStatus.hxx:11-26 | every exit code, every signal and a failed wait get their response: success only for code 0, permanent only for 64, 72, 77 and 78 |
| ExitStatus.StatusResponseIs | src/RawExecRelay.cxx:212-217 | the response for every status word, in arithmetic on the word |
| ExitStatus.SignalWins | src/ExecRelay.cxx:111-134 | a death by signal is a temporary error whatever the upper bits hold |
| ExitStatus.StatusResponseCode | src/ExitStatus.hxx:11-26 | the code of the response, K, D or Z, for every status word |
| RawExecRelayModel.OneAnswer | src/RawExecRelay.cxx:159-239 | a run that answers does so once; without I/O error the answer is a function of whole output and exit status |
| RawExecRelayModel.OrderIndependent | src/RawExecRelay.cxx:181-204 | two runs with the same output and status give the same answer, whatever the chunks and the order |
| RawExecRelayModel.EveryRunAnswers | src/RawExecRelay.cxx:181-211 | runs are bounded by the work there is, and a run nothing continues has answered once |
| RawExecRelayModel.NeverStuck | src/RawExecRelay.cxx:181-204 | an unanswered relay watches the pipe or the child, and something can happen |
| RawExecRelayModel.WhatTheChildGets | src/RawExecRelay.cxx:124-147 | the child reads headers and message from the front, all of it before the pipe is closed |
| RawExecRelayModel.OutcomeWellFormed | src/RawExecRelay.cxx:206-239 | every answer is a QMQP response of at most 256 bytes with the status's code, a success exactly for a clean exit |
| RawExecRelayModel.NotifiesTwiceIff | src/RawExecRelay.cxx:159-193 | one callback notifies twice exactly if a read fails on a hangup event after the exit |
| RawExecRelayModel.ExpectedIsReached | src/RawExecRelay.cxx:181-239 | for every output and exit status there is a run without I/O error that gives the expected answer |
| RawExecRelayModel.WriteErrorsRace | src/RawExecRelay.cxx:124-141 | while request bytes are unsent, a child that exits with 0 is a success or a temporary failure, whatever its output |
| RawExecRelayModel.DeterminedIff | src/RawExecRelay.cxx:51-147 | all runs without a failed read give the expected answer exactly if the first write took the whole request |
| RawExecRelayModel.PipeClosesIff | src/RawExecRelay.cxx:181-193 | the response pipe is closed by exactly a hangup or a read at its end, and then the first 255 bytes of the output are captured |
| RawExecRelayModel.StepKeepsInv | src/RawExecRelay.cxx:159-211 | every event keeps: captured is the first 255 bytes of the output so far, and something is watched |
| RawExecRelayModel.RawExecRelay.constructor | src/RawExecRelay.cxx:27-40 | the write buffer holds headers and message |
| RawExecRelayModel.RawExecRelay.TryRead | src/RawExecRelay.cxx:159-179 | bytes go behind the captured ones until the buffer is full, then they are discarded |
| RawExecRelayModel.RawExecRelay.OnResponsePipeReady | src/RawExecRelay.cxx:181-193 | the event's whole effect on state and handler |
| RawExecRelayModel.RawExecRelay.OnChildProcessExit | src/RawExecRelay.cxx:195-204 | the exit's whole effect on state and handler |
| RawExecRelayModel.RawExecRelay.Finish | src/RawExecRelay.cxx:206-239 | the code is put into the reserved byte in front of the captured output |
| RawExecRelayModel.RawExecRelay.Start | src/RawExecRelay.cxx:51-122 | a failed spawn is an error at once, else all three are watched and the first write is made |
| ExecRelayModel.OneAnswer | src/ExecRelay.cxx:111-145 | at most one notification, explained by client result and exit status alone |
| ExecRelayModel.OrderIndependentIff | src/ExecRelay.cxx:111-145 | both orders give the same answer exactly if the client got a reply or the child succeeded |
| ExecRelayModel.RunsAreOrders | src/ExecRelay.cxx:111-145 | every run that answers is one of the two orders |
| ExecRelayModel.NothingForwardedEarly | src/ExecRelay.cxx:129-144 | a reply is forwarded only after the child exited with 0 |
| ExecRelayModel.NeverStuck | src/ExecRelay.cxx:111-145 | an unanswered relay still awaits the child or the client |
| ExecRelayModel.ExecRelay.OnChildProcessExit | src/ExecRelay.cxx:111-134 | the exit's whole effect, including a deferred reply |
| ExecRelayModel.ExecRelay.OnNetstringResponse | src/ExecRelay.cxx:136-145 | a reply is deferred exactly while the child runs |
| ActionModel.NewExecIff | src/LMail.cxx:222-298 | exactly which calls build an action, and which one: 1 to 32 arguments as passed, the variables of all env tables in order, at most 32, and the last timeout, up to an hour |
| ActionModel.ArgumentsIff | src/LMail.cxx:262-267 | arguments are taken exactly if all are strings or numbers and there are at most 32, and as the text Lua shows |
| ActionModel.EnvIff | src/LMail.cxx:200-216 | variables are taken as NAME=VALUE exactly if all are strings and they fit |
| ActionModel.OptionsIff | src/LMail.cxx:222-247 | options are taken exactly if each is a table of strings that fit or a valid time; all variables in order and the last time result |
| ActionModel.FirstBadVariable | src/LMail.cxx:200-216 | the first bad variable decides the error |
| ActionModel.FirstBadOption | src/LMail.cxx:222-247 | the first bad option decides the error |
| ActionModel.FirstBadArgument | src/LMail.cxx:262-267 | the first argument that is no text, or one too many, decides the error |
| ActionModel.ActionBuilder.CollectExec | src/LMail.cxx:253-268 | the loops compute the recursive collection, with the same errors |
| ActionModel.ActionBuilder.CollectExecOptions | src/LMail.cxx:222-247 | the loop over the options table computes the recursive one |
| ActionModel.FillSlots | src/RawExecRelay.cxx:80-93 | strings and the final null fit the 33 slots |
| ConnectionModel.FinishOnce | src/Connection.cxx:343-354 | finishing makes one response, one record and one destruction, whether or not the response can be sent |
| ConnectionModel.EndOnce | src/Connection.cxx:212-226 | a disconnect or socket error destroys once and logs once |
| ConnectionModel.LoggedLength | src/Connection.cxx:314-326 | the logged length is that of the relayed message without the Received line |
| ConnectionModel.QmqpRelayConnection.OnRequest | src/Connection.cxx:71-113 | parse, refuse or strip and hand over: the whole new state |
| ConnectionModel.QmqpRelayConnection.AssembleHeaders | src/Connection.cxx:194-210 | inserted headers, then Received if the client is known |
| ConnectionModel.QmqpRelayConnection.Do | src/Connection.cxx:115-192 | the state, the timer, the kind of relay and its bytes, or the response, for every action |
| ConnectionModel.QmqpRelayConnection.OnLuaFinished | src/Connection.cxx:249-264 | an action is carried out, anything else is a script failure |
| ConnectionModel.QmqpRelayConnection.TotalSize | src/Connection.cxx:276-284 | the sum is the size of the headers put together |
| ConnectionModel.QmqpRelayConnection.Log | src/Connection.cxx:286-341 | the record's text and numbers, and that the mail is gone afterwards |
| ConnectionModel.QmqpRelayConnection.Finish | src/Connection.cxx:343-354 | log, send, destroy, with both asserts |
| SystemModel.AcceptanceSafety | src/Connection.cxx:159-274 | a K response comes only from discard, the server's reply, a reply of a child that exited 0, or a raw child that exited 0 |
| SystemModel.LifeCycle | src/Connection.cxx:56-62 | at most one destruction in every run; a connection that is gone made exactly one response, a well-formed one, unless the client's side ended it |
| SystemModel.AssertsHold | src/Connection.cxx:249-274 | in every run each callback of server, handler, relay and timer finds the state and the mail its asserts demand, and a relay notifies at most once, also from its start |
| SystemModel.LogOnce | src/Connection.cxx:286-341 | exactly one record for a parsed mail with a log socket on every path to destruction, with the stated traffic |
| SystemModel.WhatIsRelayed | src/Connection.cxx:115-157 | in every run the relay's bytes mean the edited mail with the client's recipients |
| SystemModel.RelayNeverStuck | src/Connection.cxx:159-192 | while relaying, the relay can go on without a failure or the timer, and every event it sees is progress |
| SystemModel.EveryRunAnswers | src/Connection.cxx:159-354 | a run's length is bounded by edits, output and request; a run with nothing awaited left has destroyed the connection and answered exactly once, unless cut short |
| SystemModel.StepKeepsInv | src/Connection.cxx:159-354 | every event keeps the whole-system invariant |
| AnswerModel.ResponseByCause | src/Connection.cxx:71-274 | in every run the responses are exactly those of its last event: refusals by the reason in the payload, discard, reject, script failure, timeout, failed start, connect and relay, replies, exits, I/O errors, each with its text |
| AnswerModel.RefusedWithReason | src/Connection.cxx:77-93 | a payload that is malformed, has a bad address or too many recipients has ended the connection with the response for that |
| AnswerModel.RepliesForwarded | src/BasicRelay.cxx:28-46 | a server's reply, and a child's once it exited cleanly, reaches the client as it is if it starts with K, D or Z, else as a temporary error |
| AnswerModel.TimerIff | src/Connection.cxx:115-157 | the timer can fire exactly while a program is executed that was given a positive timeout |
| AnswerModel.LogRecordIs | src/Connection.cxx:286-341 | the one record, whole: current sender, all recipients, the response's text or who ended the connection, the account, received and sent bytes and length |

## Left out

- The Lua runtime: a handler is any sequence of attempted edits followed by an action or a failure; Lua errors are values, and a wrong return type is the same as a failure.
- Edits after the handler returned: a script that keeps the mail object beyond its handler is not modelled.
- Sockets, spawning, signals, timers, killing of children: they appear as events only; a timer that was scheduled may fire at any time.
- Byte-level framing inside the netstring server and client, the limit on the size of incoming mails and the 256-byte limit on replies: not part of this model.
- ConnectionModel.QmqpRelayConnection.Log: timestamp, duration and the truncation to 1024 bytes of a record are not part of this model.
- The content of `VerifyEmailAddress`, the write buffer's array, the log datagram's encoding: not part of this model.
- Allocation failure and ownership of memory: with the callbacks modelled as return values, the use of an object after its own callback destroyed it is not represented.
- The reads of the Lua attributes (`sender`, `recipients`, `pid`, `cgroup`), the `connect` address, startup, configuration and the resolver: no hard property.
- The class hierarchy of mail and relays: base classes are fields named `base`, since Dafny classes do not inherit from classes.
- ActionModel.OptionsIff: timeouts are real numbers; rounding to the event loop's clock is not modelled.
