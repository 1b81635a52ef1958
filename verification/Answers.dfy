/** What ends a connection decides its one response, its log record and its timer, in the texts
    of the protocol: over whole runs, from what client, handler, relay and timer did. */
module AnswerModel {
  import opened Base
  import opened QmqpMailModel
  import opened MailModel
  import opened HeaderText
  import opened BasicRelayModel
  import opened ConnectionModel
  import opened SystemModel
  import opened ExitStatus
  import Remote = RemoteRelayModel
  import Exec = ExecRelayModel
  import Raw = RawExecRelayModel
  import Delivery

  // ------------------------------------------------------------ the texts

  /** The responses to a payload, by what the parser makes of it. */
  function RefusalTexts(r: ParseResult): seq<string> {
    match r
    case SUCCESS => []
    case MALFORMED => ["Dmalformed input"]
    case BAD_ADDRESS => ["Dbad address"]
    case TOO_MANY_RECIPIENTS => ["Dtoo many recipients"]
  }

  /** The responses to a handler's choice: a relay answers at once only if it could not start. */
  function ChoiceTexts(choice: Choice): seq<string> {
    match choice
    case Discarding => ["Kdiscarded"]
    case Rejecting => ["Drejected"]
    case Connecting => []
    case Executing(_, spawned) => if spawned then [] else ["Zinternal server error"]
    case ExecutingRaw(_, spawned, first, _) =>
      if !spawned then ["Zinternal server error"] else if first.WriteError? then ["Zwrite error"] else []
  }

  /** The response to a server's event. */
  function RemoteTexts(e: Remote.Event): seq<string> {
    match e
    case Connected => []
    case ConnectFails => ["Zconnect failed"]
    case Replies(payload) => [ReplyText(payload)]
    case ReplyFails => ["Zrelay failed"]
  }

  /** The response to an event of a QMQP child: a reply waits for the exit, a success for the reply. */
  function ExecTexts(w: Exec.World, e: Exec.Event): seq<string> {
    match e
    case ClientDone(Failed) => ["Zrelay failed"]
    case ClientDone(Replied(payload)) => if w.exit.Some? then [ReplyText(payload)] else []
    case ChildExits(status) =>
      if !IsCleanWord(status) then [WordText(status)]
      else match w.client
        case Some(Replied(payload)) => [ReplyText(payload)]
        case _ => []
  }

  /** The answer of a raw program: its output, at most 255 bytes of it, behind the code for its exit. */
  function RawText(output: string, status: int): string {
    if output == "" then WordText(status)
    else [WordText(status)[0]] + (if |output| <= 255 then output else output[..255])
  }

  /** The response to an event of a raw program; `after` is its world afterwards. */
  predicate RawAnswers(e: Raw.Event, after: Raw.World, responses: seq<string>) {
    match e
    case RequestReady(WriteError) => responses == ["Zwrite error"]
    case ResponseReady(events, ReadError) =>
      if events.read || !events.hangup then responses == ["Zread error"] else RawAnswersAtEnd(after, responses)
    case _ => RawAnswersAtEnd(after, responses)
  }

  /** There is an answer as soon as the pipe is closed and the child is gone, and then it is the
      output's. */
  predicate RawAnswersAtEnd(after: Raw.World, responses: seq<string>) {
    if after.raw.responseOpen || after.raw.pidfd then responses == []
    else after.exit.Some? && responses == [RawText(after.output, after.exit.value)]
  }

  /** `t` is the system after event `e` in state `s`: its responses are the ones for this cause. */
  ghost predicate CausedBy(env: Env, s: System, e: Event, t: System) {
    var responses := t.conn.responses;
    match e
    case Request(payload) =>
      forall r, es, items, rest :: Reason(r, env.verify, payload, es, items, rest) ==> responses == RefusalTexts(r)
    case EditMail(_) => responses == []
    case HandlerReturns(choice) => responses == ChoiceTexts(choice)
    case HandlerFails => responses == ["Zscript failed"]
    case RemoteEvent(re) => responses == RemoteTexts(re)
    case ExecEvent(ee) => s.relay.ExecRelay? && responses == ExecTexts(s.relay.exec, ee)
    case RawEvent(we) => t.relay.RawRelay? && RawAnswers(we, t.relay.raw, responses)
    case TimerFires => responses == ["Ztimeout"]
    case SocketError => responses == []
    case Disconnect => responses == []
  }

  // ------------------------------------------------------------ one step

  predicate Live(c: Conn) {
    c.destroyed == 0 && c.responses == [] && c.logs == [] && c.state != END
  }

  lemma RequestCauses(env: Env, s: System, payload: string, sendOk: bool)
    requires Live(s.conn)
    ensures AfterRequest(env.verify, env.ws, env.logging, s.conn, payload, sendOk).responses
         == RefusalTexts(ParseEnvelope(env.verify, payload, EMPTY).result)
  {
    var c := s.conn.(state := RECEIVED);
    match ParseEnvelope(env.verify, payload, EMPTY).result
    case SUCCESS =>
    case MALFORMED => FinishOnce(env.logging, c, "Dmalformed input", sendOk);
    case BAD_ADDRESS => FinishOnce(env.logging, c, "Dbad address", sendOk);
    case TOO_MANY_RECIPIENTS => FinishOnce(env.logging, c, "Dtoo many recipients", sendOk);
  }

  function Texts(notes: seq<Notification>): seq<string> {
    seq(|notes|, i requires 0 <= i < |notes| => notes[i].text)
  }

  lemma NotesCause(logging: bool, c: Conn, notes: seq<Notification>, sendOk: bool)
    requires Live(c) && AtMostOneNote(notes)
    ensures AfterNotes(logging, c, notes, sendOk).responses == Texts(notes)
  {
    if notes != [] {
      OneNote(logging, c, notes, sendOk);
      FinishOnce(logging, c, notes[0].text, sendOk);
    }
  }

  lemma HandlerCauses(env: Env, s: System, choice: Choice, sendOk: bool)
    requires Live(s.conn) && s.conn.mail.Some? && Startable(choice, RelayInput(env, s, choice))
    ensures AfterHandler(env, s, choice, sendOk).conn.responses == ChoiceTexts(choice)
  {
    var request := RelayInput(env, s, choice);
    var conn := AfterLuaFinished(env.logging, s.conn, env.cred, Some(Kind(choice)), Timeout(choice), sendOk);
    if choice.Discarding? || choice.Rejecting? {
      FinishOnce(env.logging, s.conn.(state := NOT_RELAYING), if choice.Discarding? then "Kdiscarded" else "Drejected", sendOk);
    } else {
      NewRelayNotes(choice, request);
      StartCauses(choice, request);
      NotesCause(env.logging, conn, Notes(NewRelay(choice, request)), sendOk);
    }
  }

  lemma StartCauses(choice: Choice, request: string)
    requires Startable(choice, request) && !choice.Discarding? && !choice.Rejecting?
    ensures Texts(Notes(NewRelay(choice, request))) == ChoiceTexts(choice)
  {
    if choice.ExecutingRaw? {
      Raw.StartEstablishesInv(request, choice.output, choice.spawned, choice.first);
    }
  }

  lemma RemoteCauses(w: Remote.World, e: Remote.Event)
    requires Remote.Enabled(w, e)
    ensures AtMostOneNote(Remote.Step(w, e).notified) && Texts(Remote.Step(w, e).notified) == RemoteTexts(e)
  {
    if e.Replies? {
      ReplyOutcomeIs(e.payload);
    }
  }

  lemma ExecCauses(w: Exec.World, e: Exec.Event)
    requires Exec.Inv(w) && Exec.Enabled(w, e)
    ensures Texts(Exec.Step(w, e).notified) == ExecTexts(w, e)
  {
    match e
    case ClientDone(Failed) =>
    case ClientDone(Replied(payload)) => ReplyOutcomeIs(payload);
    case ChildExits(status) =>
      StatusResponseIs(status);
      if w.client.Some? {
        ReplyOutcomeIs(w.client.value.payload);
      }
  }

  lemma {:induction false} RawCauses(w: Raw.World, e: Raw.Event)
    requires Raw.Inv(w) && Raw.Enabled(w, e)
    ensures RawAnswers(e, Raw.Step(w, e), Texts(Raw.Step(w, e).notified))
  {
    var after := Raw.Step(w, e);
    Raw.StepKeepsInv(w, e);
    if !Raw.IsIoError(e) {
      AnswersAtEnd(w, e);
      if after.notified != [] {
        ExpectedText(after.output, after.exit.value);
      }
    }
  }

  /** Without an I/O error, the handler is notified exactly when pipe and child are both gone. */
  lemma AnswersAtEnd(w: Raw.World, e: Raw.Event)
    requires Raw.Inv(w) && Raw.Enabled(w, e) && !Raw.IsIoError(e)
    ensures var after := Raw.Step(w, e);
            after.notified == [] <==> after.raw.responseOpen || after.raw.pidfd
  {
  }

  lemma ExpectedText(output: string, status: int)
    ensures Raw.Expected(output, status).text == RawText(output, status)
  {
    StatusResponseIs(status);
    Raw.OutcomeWellFormed(Take(output, 255), status);
  }

  lemma DeliverCauses(env: Env, s: System, relay: Relay, sendOk: bool)
    requires Live(s.conn) && AtMostOneNote(Notes(relay))
    ensures Deliver(env, s, relay, sendOk).conn.responses == Texts(Notes(relay))
  {
    NotesCause(env.logging, s.conn, Notes(relay), sendOk);
  }

  lemma {:induction false} RelayCauses(env: Env, s: System, i: Input)
    requires LiveInv(s, s.conn.mail) && Live(s.conn) && Enabled(env, s, i.event) && OfRelay(i.event)
    ensures CausedBy(env, s, i.event, Step(env, s, i))
  {
    match i.event
    case RemoteEvent(e) =>
      RemoteCauses(s.relay.remote, e);
      DeliverCauses(env, s, RemoteRelay(Remote.Step(s.relay.remote, e)), i.sendOk);
    case ExecEvent(e) =>
      ExecStepAnswers(s.relay.exec, e);
      ExecCauses(s.relay.exec, e);
      DeliverCauses(env, s, ExecRelay(Exec.Step(s.relay.exec, e)), i.sendOk);
    case RawEvent(e) =>
      RawStepAnswers(s.relay.raw, e);
      RawCauses(s.relay.raw, e);
      DeliverCauses(env, s, RawRelay(Raw.Step(s.relay.raw, e)), i.sendOk);
  }

  lemma {:induction false} StepCauses(env: Env, s: System, i: Input)
    requires Good(env, s) && Enabled(env, s, i.event)
    ensures CausedBy(env, s, i.event, Step(env, s, i))
  {
    match i.event
    case Request(payload) =>
      RequestCauses(env, s, payload, i.sendOk);
      forall r, es, items, rest | Reason(r, env.verify, payload, es, items, rest)
        ensures Step(env, s, i).conn.responses == RefusalTexts(r)
      {
        ReasonDecides(r, env.verify, payload, es, items, rest);
      }
    case EditMail(_) =>
    case HandlerReturns(choice) => HandlerCauses(env, s, choice, i.sendOk);
    case HandlerFails => FinishOnce(env.logging, s.conn, "Zscript failed", i.sendOk);
    case TimerFires => FinishOnce(env.logging, s.conn.(armed := false), "Ztimeout", i.sendOk);
    case SocketError => EndOnce(env.logging, s.conn);
    case Disconnect => EndOnce(env.logging, s.conn);
    case _ => RelayCauses(env, s, i);
  }

  // ------------------------------------------------------------ whole runs

  /** The last step of a run that is not over before it starts. */
  lemma LastStep(env: Env, trace: seq<System>, inputs: seq<Input>)
    requires IsTrace(env, trace, inputs) && inputs != []
    ensures var n := |inputs| - 1;
            && Good(env, trace[n]) && Enabled(env, trace[n], inputs[n].event)
            && trace[|inputs|] == Step(env, trace[n], inputs[n])
  {
    var n := |inputs| - 1;
    TraceIsGood(env, trace, inputs, n);
    assert Enabled(env, trace[n], inputs[n].event) && trace[n + 1] == Step(env, trace[n], inputs[n]);
  }

  /** In every run the responses are those its last event causes: the refusals by the reason in the
      payload, the handler's actions and failures, the server's and the child's replies, exits,
      errors and the timeout, each with its text. */
  lemma {:induction false} ResponseByCause(env: Env, trace: seq<System>, inputs: seq<Input>, s: System)
    requires Reaches(env, trace, inputs, s)
    ensures inputs == [] ==> s.conn.responses == []
    ensures inputs != [] ==> CausedBy(env, trace[|inputs| - 1], inputs[|inputs| - 1].event, s)
  {
    if inputs != [] {
      LastStep(env, trace, inputs);
      StepCauses(env, trace[|inputs| - 1], inputs[|inputs| - 1]);
    }
  }

  /** A payload that is no mail is refused, with the response for the first thing wrong with it. */
  lemma {:induction false} RefusedWithReason(env: Env, trace: seq<System>, inputs: seq<Input>, s: System,
                                             r: ParseResult, es: seq<string>, items: seq<string>, rest: string)
    requires Reaches(env, trace, inputs, s) && s.payload.Some? && r != SUCCESS
    requires Reason(r, env.verify, s.payload.value, es, items, rest)
    ensures s.conn.responses == RefusalTexts(r) && s.conn.destroyed == 1
  {
    ReasonDecides(r, env.verify, s.payload.value, es, items, rest);
    assert inputs != [];
    var before, i := trace[|inputs| - 1], inputs[|inputs| - 1];
    LastStep(env, trace, inputs);
    ResponseByCause(env, trace, inputs, s);
    if !i.event.Request? {
      NoMailNoEvent(env, before, i);
    }
    TraceIsGood(env, trace, inputs, |inputs|);
    RefusedIsGone(env, s);
  }

  lemma NoMailNoEvent(env: Env, s: System, i: Input)
    requires Good(env, s) && Enabled(env, s, i.event) && !i.event.Request?
    requires Step(env, s, i).payload.Some?
    ensures Parsed(env, Step(env, s, i))
  {
    if !i.event.EditMail? {
      StepKeepsHistory(env, s, i);
    }
  }

  lemma RefusedIsGone(env: Env, s: System)
    requires Good(env, s) && s.payload.Some? && !Parsed(env, s)
    ensures s.conn.destroyed == 1
  {
  }

  /** Replies reach the client as they are if they start with K, D or Z: those of a server at once,
      those of a child once it has exited cleanly. Any other reply is a temporary error, and so
      is a bad exit, unless it is one of the four permanent ones. */
  lemma {:induction false} RepliesForwarded(env: Env, trace: seq<System>, inputs: seq<Input>, s: System)
    requires Reaches(env, trace, inputs, s)
    ensures s.relay.RemoteRelay? && s.relay.remote.reply.Some? ==>
              s.conn.responses == [ReplyText(s.relay.remote.reply.value)]
    ensures s.relay.ExecRelay? && s.relay.exec.exit.Some? && s.relay.exec.client.Some? && s.relay.exec.client.value.Replied? ==>
              s.conn.responses == [if IsCleanWord(s.relay.exec.exit.value) then ReplyText(s.relay.exec.client.value.payload)
                                   else WordText(s.relay.exec.exit.value)]
  {
    if inputs != [] {
      var before, i := trace[|inputs| - 1], inputs[|inputs| - 1];
      LastStep(env, trace, inputs);
      StepCauses(env, before, i);
      WaitingRelay(before, TheMail(env, before));
      RepliesCause(env, before, i);
    }
  }

  /** A relay that has not answered has no reply to forward. */
  predicate Waiting(relay: Relay) {
    && (relay.RemoteRelay? ==> relay.remote.reply.None?)
    && (relay.ExecRelay? && relay.exec.exit.Some? ==> relay.exec.client.None? && IsCleanWord(relay.exec.exit.value))
  }

  lemma WaitingRelay(s: System, m: Option<Mail>)
    requires LiveInv(s, m)
    ensures Waiting(s.relay)
  {
  }

  /** What an event does to the relay. */
  lemma RelayAfter(env: Env, s: System, i: Input)
    requires Enabled(env, s, i.event)
    ensures var relay := Step(env, s, i).relay;
            match i.event
            case RemoteEvent(e) => relay == RemoteRelay(Remote.Step(s.relay.remote, e))
            case ExecEvent(e) => relay == ExecRelay(Exec.Step(s.relay.exec, e))
            case RawEvent(e) => relay == RawRelay(Raw.Step(s.relay.raw, e))
            case HandlerReturns(choice) => relay == s.relay || relay == NewRelay(choice, RelayInput(env, s, choice))
            case _ => relay == s.relay
  {
  }

  lemma {:induction false} RepliesCause(env: Env, s: System, i: Input)
    requires Enabled(env, s, i.event) && Waiting(s.relay) && CausedBy(env, s, i.event, Step(env, s, i))
    ensures var t := Step(env, s, i);
            && (t.relay.RemoteRelay? && t.relay.remote.reply.Some? ==> t.conn.responses == [ReplyText(t.relay.remote.reply.value)])
            && (t.relay.ExecRelay? ==> ExecReplyCauses(t.relay.exec, t.conn.responses))
  {
    var t := Step(env, s, i);
    RelayAfter(env, s, i);
    match i.event
    case RemoteEvent(e) =>
    case ExecEvent(e) => ExecReply(s.relay.exec, e);
    case _ =>
  }

  predicate ExecReplyCauses(w: Exec.World, responses: seq<string>) {
    w.exit.Some? && w.client.Some? && w.client.value.Replied? ==>
      responses == [if IsCleanWord(w.exit.value) then ReplyText(w.client.value.payload) else WordText(w.exit.value)]
  }

  lemma ExecReply(w: Exec.World, e: Exec.Event)
    requires Waiting(ExecRelay(w)) && Exec.Enabled(w, e)
    ensures ExecReplyCauses(Exec.Step(w, e), ExecTexts(w, e))
  {
  }

  /** The timer runs exactly while a program is executed that was given a timeout; a connection
      to a server has none. */
  lemma {:induction false} TimerIff(env: Env, trace: seq<System>, inputs: seq<Input>, s: System)
    requires Reaches(env, trace, inputs, s)
    ensures Enabled(env, s, TimerFires) <==> s.conn.destroyed == 0 && s.choice.Some? && HasTimeout(s.choice.value)
  {
    TraceIsGood(env, trace, inputs, |inputs|);
    if s.conn.destroyed == 0 {
      LiveTimer(env, s, TheMail(env, s));
    }
  }

  predicate HasTimeout(choice: Choice) {
    match choice
    case Executing(timeout, _) => timeout.Some? && timeout.value > 0.0
    case ExecutingRaw(timeout, _, _, _) => timeout.Some? && timeout.value > 0.0
    case _ => false
  }

  lemma LiveTimer(env: Env, s: System, m: Option<Mail>)
    requires LiveInv(s, m)
    ensures Enabled(env, s, TimerFires) <==> s.choice.Some? && HasTimeout(s.choice.value)
  {
  }

  // ------------------------------------------------------------ the log record

  /** What a record says of the end: the response without its code, or who ended the connection. */
  function EndWord(e: Event, responses: seq<string>): string {
    match e
    case Disconnect => "canceled"
    case SocketError => "client error"
    case _ => if responses != [] && responses[0] != "" then responses[0][1..] else ""
  }

  /** The record of a mail whose connection is gone: sender and recipients, the end, the account,
      the sizes. */
  function Entry(env: Env, s: System, e: Event): LogRecord
    requires s.payload.Some?
  {
    var f := ParseEnvelope(env.verify, s.payload.value, EMPTY).fields;
    var word := EndWord(e, s.conn.responses);
    var added := |JoinLines(Delivery.InsertedFields(FirstFew(ValidInsertions(s.edits), 16)))|;
    LogRecord(
      "from=<" + SenderAfter(env.verify, f.sender, s.edits) + "> to=" + Joined(Bracketed(f.recipients))
      + (if word == "" then "" else " " + word),
      AccountAfter("", s.edits),
      |s.payload.value|,
      if Relaying(s) then |s.payload.value| + added else 0,
      |StripLeft(env.ws, f.message)| + added)
  }

  /** Exactly one record, exactly this one, for every parsed mail on every way a connection ends. */
  lemma {:induction false} LogRecordIs(env: Env, trace: seq<System>, inputs: seq<Input>, s: System)
    requires Reaches(env, trace, inputs, s) && s.conn.destroyed == 1
    ensures inputs != []
    ensures s.conn.logs == if env.logging && Parsed(env, s) then [Entry(env, s, inputs[|inputs| - 1].event)] else []
  {
    LastStep(env, trace, inputs);
    EndIsLogged(env, trace[|inputs| - 1], inputs[|inputs| - 1]);
  }

  lemma {:induction false} EndIsLogged(env: Env, s: System, i: Input)
    requires Good(env, s) && Enabled(env, s, i.event)
    ensures var t := Step(env, s, i);
            t.conn.destroyed == 1 ==> t.conn.logs == if env.logging && Parsed(env, t) then [Entry(env, t, i.event)] else []
  {
    var t := Step(env, s, i);
    StepKeepsInv(env, s, i);
    GoodParts(env, s);
    GoodParts(env, t);
    if t.conn.destroyed == 1 {
      if CutsShort(i.event) {
        SameMail(env, s, i);
      }
      WordIsLogged(env, s, i, TheMail(env, t));
      if Parsed(env, t) {
        EntryIs(env, t, i.event);
      }
    }
  }

  lemma GoodParts(env: Env, s: System)
    requires Good(env, s)
    ensures s.conn.destroyed == 0 ==> LiveInv(s, s.conn.mail) && s.conn.mail == TheMail(env, s)
    ensures s.conn.destroyed != 0 ==> DeadInv(env.logging, s, TheMail(env, s))
  {
  }

  lemma {:induction false} SameMail(env: Env, s: System, i: Input)
    requires Enabled(env, s, i.event) && CutsShort(i.event)
    ensures TheMail(env, Step(env, s, i)) == TheMail(env, s)
  {
    StepKeepsHistory(env, s, i);
    TheMailIs(env, s);
  }

  lemma {:induction false} WordIsLogged(env: Env, s: System, i: Input, m: Option<Mail>)
    requires LiveInv(s, s.conn.mail) && Enabled(env, s, i.event)
    requires DeadInv(env.logging, Step(env, s, i), m) && (CutsShort(i.event) ==> s.conn.mail == m)
    ensures var t := Step(env, s, i);
            t.conn.logs == if env.logging && m.Some? then [Record(m.value, Relaying(t), EndWord(i.event, t.conn.responses))] else []
  {
    StepAnswers(env, s, i);
    if CutsShort(i.event) {
      EndOnce(env.logging, s.conn);
    }
  }

  lemma {:induction false} EntryIs(env: Env, s: System, e: Event)
    requires Parsed(env, s)
    ensures Record(EditedMail(env, s), Relaying(s), EndWord(e, s.conn.responses)) == Entry(env, s, e)
  {
    var f := ParseEnvelope(env.verify, s.payload.value, EMPTY).fields;
    EditedIs(env, s.payload.value, f, s.edits);
    RecordIs(EditedMail(env, s), Relaying(s), EndWord(e, s.conn.responses));
  }

  lemma {:induction false} EditedIs(env: Env, payload: string, f: Envelope, edits: seq<Edit>)
    ensures var m := ApplyAll(env.verify, Delivery.Received(env.ws, payload, f), edits);
            && m.envelope.sender == SenderAfter(env.verify, f.sender, edits) && m.envelope.recipients == f.recipients
            && m.envelope.message == StripLeft(env.ws, f.message)
            && m.account == AccountAfter("", edits) && m.buffer == payload
            && Concat(m.headers) == JoinLines(Delivery.InsertedFields(FirstFew(ValidInsertions(edits), 16)))
  {
    EditsAchieve(env.verify, Delivery.Received(env.ws, payload, f), edits);
    LinesJoined(FirstFew(ValidInsertions(edits), 16));
  }

  lemma {:induction false} LinesJoined(hs: seq<(string, string)>)
    ensures Concat(LinesNewestFirst(hs) + []) == JoinLines(Delivery.InsertedFields(hs))
  {
    assert LinesNewestFirst(hs) + [] == LinesNewestFirst(hs);
    Delivery.LinesAreFields(hs);
  }

  lemma RecordIs(m: Mail, relaying: bool, word: string)
    ensures var added := |Concat(m.headers)|;
            Record(m, relaying, word)
            == LogRecord(
                 "from=<" + m.envelope.sender + "> to=" + Joined(Bracketed(m.envelope.recipients)) + (if word == "" then "" else " " + word),
                 m.account, |m.buffer|, if relaying then |m.buffer| + added else 0, |m.envelope.message| + added)
  {
    AddressListIs(m.envelope.recipients);
  }
}
