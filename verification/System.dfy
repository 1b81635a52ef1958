/** One connection with its handler and its relay, over whole runs: requests, edits, actions, relay
    events, timeouts, disconnects and socket errors in any order the parts allow. */
module SystemModel {
  import opened Base
  import opened QmqpMailModel
  import opened MailModel
  import opened BasicRelayModel
  import opened ActionModel
  import opened ConnectionModel
  import ExitStatus
  import Remote = RemoteRelayModel
  import Exec = ExecRelayModel
  import Raw = RawExecRelayModel
  import Delivery

  /** What stays fixed over a run: the address check, the whitespace set of the strip, whether a log
      socket is configured, and the credentials of the client. */
  datatype Env = Env(verify: string -> bool, ws: char -> bool, logging: bool, cred: Option<Cred>)

  /** The action a handler returns, with its timeout, and with what its relay will meet right at
      the start: whether the child could be spawned, what the first write did, what the child is
      going to write. */
  datatype Choice =
    | Discarding
    | Rejecting
    | Connecting
    | Executing(timeout: Option<real>, spawned: bool)
    | ExecutingRaw(timeout: Option<real>, spawned: bool, first: Raw.WriteResult, output: string)

  function Kind(choice: Choice): ActionType {
    match choice
    case Discarding => DISCARD
    case Rejecting => REJECT
    case Connecting => CONNECT
    case Executing(_, _) => EXEC
    case ExecutingRaw(_, _, _, _) => EXEC_RAW
  }

  /** Only the exec actions take a timeout. */
  function Timeout(choice: Choice): Option<real> {
    if choice.Executing? || choice.ExecutingRaw? then choice.timeout else None
  }

  datatype Relay =
    | NoRelay
    | RemoteRelay(remote: Remote.World)
    | ExecRelay(exec: Exec.World)
    | RawRelay(raw: Raw.World)

  predicate Startable(choice: Choice, request: string) {
    choice.ExecutingRaw? ==> Raw.Writable(request, choice.first)
  }

  function NewRelay(choice: Choice, request: string): Relay
    requires Startable(choice, request)
  {
    match choice
    case Discarding => NoRelay
    case Rejecting => NoRelay
    case Connecting => RemoteRelay(Remote.START)
    case Executing(_, spawned) => ExecRelay(Exec.Started(spawned))
    case ExecutingRaw(_, spawned, first, output) => RawRelay(Raw.Started(request, output, spawned, first))
  }

  function Notes(relay: Relay): seq<Notification> {
    match relay
    case NoRelay => []
    case RemoteRelay(w) => w.notified
    case ExecRelay(w) => w.notified
    case RawRelay(w) => w.notified
  }

  /** The connection and the parts around it. `payload`, `edits` and `choice` record what the client
      and the handler did; `handling` says that the handler's coroutine was resumed and has
      neither returned nor failed. */
  datatype System = System(
    conn: Conn,
    relay: Relay,
    handling: bool,
    payload: Option<string>,
    edits: seq<Edit>,
    choice: Option<Choice>)

  const INITIAL := System(NEW_CONNECTION, NoRelay, false, None, [], None)

  datatype Event =
    | Request(payload: string)
    | EditMail(edit: Edit)
    | HandlerReturns(choice: Choice)
    | HandlerFails
    | RemoteEvent(remoteEvent: Remote.Event)
    | ExecEvent(execEvent: Exec.Event)
    | RawEvent(rawEvent: Raw.Event)
    | TimerFires
    | SocketError
    | Disconnect

  /** An event, and whether a response it may cause can be sent. */
  datatype Input = Input(event: Event, sendOk: bool)

  /** What the parts around the connection may do next, by their own state: the server passes one
      request on, a resumed handler edits, returns or fails, a relay sees what its environment
      allows, a scheduled timer fires. The connection's `state` and `mail` restrict nothing. An
      object that is gone has taken its socket, timer, handler and relay with it. */
  predicate Enabled(env: Env, s: System, e: Event) {
    && s.conn.destroyed == 0
    && match e
       case Request(payload) => s.payload.None? && |payload| <= SIZE_MAX
       case EditMail(_) => s.handling
       case HandlerReturns(choice) => s.handling && Startable(choice, RelayInput(env, s, choice))
       case HandlerFails => s.handling
       case RemoteEvent(re) => s.relay.RemoteRelay? && Remote.Enabled(s.relay.remote, re)
       case ExecEvent(ee) => s.relay.ExecRelay? && Exec.Enabled(s.relay.exec, ee)
       case RawEvent(we) => s.relay.RawRelay? && Raw.Enabled(s.relay.raw, we)
       case TimerFires => s.conn.armed
       case SocketError => true
       case Disconnect => true
  }

  /** The bytes a relay for `choice` gets. */
  function RelayInput(env: Env, s: System, choice: Choice): string {
    if s.conn.mail.None? then "" else Outgoing(Kind(choice), s.conn.mail.value, env.cred)
  }

  /** Every notification finishes the connection; an empty one would fail an assertion. */
  function AfterNotes(logging: bool, c: Conn, notes: seq<Notification>, sendOk: bool): Conn
    decreases |notes|
  {
    if notes == [] || notes[0].text == "" then c
    else AfterNotes(logging, AfterFinish(logging, c, notes[0].text, sendOk), notes[1..], sendOk)
  }

  /** The relay moves on, and what it has to say reaches the connection. */
  function Deliver(env: Env, s: System, relay: Relay, sendOk: bool): System {
    s.(relay := relay, conn := AfterNotes(env.logging, s.conn, Notes(relay), sendOk))
  }

  /** The handler returned; a relay that fails in its `Start` answers at once. */
  function AfterHandler(env: Env, s: System, choice: Choice, sendOk: bool): System
    requires s.conn.mail.Some? && Startable(choice, RelayInput(env, s, choice))
  {
    var conn := AfterLuaFinished(env.logging, s.conn, env.cred, Some(Kind(choice)), Timeout(choice), sendOk);
    var t := s.(conn := conn, choice := Some(choice), handling := false);
    if choice.Discarding? || choice.Rejecting? then t
    else Deliver(env, t, NewRelay(choice, RelayInput(env, s, choice)), sendOk)
  }

  /** Without a mail, which `AssertsHold` rules out, edits and actions have nothing to work on. */
  function Step(env: Env, s: System, i: Input): System
    requires Enabled(env, s, i.event)
  {
    match i.event
    case Request(payload) =>
      s.(conn := AfterRequest(env.verify, env.ws, env.logging, s.conn, payload, i.sendOk),
         handling := ParseEnvelope(env.verify, payload, EMPTY).result == SUCCESS,
         payload := Some(payload))
    case EditMail(edit) =>
      if s.conn.mail.None? then s
      else s.(conn := s.conn.(mail := Some(Apply(env.verify, s.conn.mail.value, edit))), edits := s.edits + [edit])
    case HandlerReturns(choice) =>
      if s.conn.mail.None? then s.(handling := false) else AfterHandler(env, s, choice, i.sendOk)
    case HandlerFails =>
      s.(conn := AfterLuaFinished(env.logging, s.conn, env.cred, None, None, i.sendOk), handling := false)
    case RemoteEvent(re) => Deliver(env, s, RemoteRelay(Remote.Step(s.relay.remote, re)), i.sendOk)
    case ExecEvent(ee) => Deliver(env, s, ExecRelay(Exec.Step(s.relay.exec, ee)), i.sendOk)
    case RawEvent(we) => Deliver(env, s, RawRelay(Raw.Step(s.relay.raw, we)), i.sendOk)
    case TimerFires =>
      s.(conn := AfterFinish(env.logging, s.conn.(armed := false), "Ztimeout", i.sendOk))
    case SocketError =>
      s.(conn := AfterError(env.logging, s.conn))
    case Disconnect =>
      s.(conn := AfterDestroy(env.logging, s.conn))
  }

  /** `trace` is the states of a run under `inputs`, from the new connection on. */
  predicate IsTrace(env: Env, trace: seq<System>, inputs: seq<Input>) {
    && |trace| == |inputs| + 1
    && trace[0] == INITIAL
    && forall k :: 0 <= k < |inputs| ==>
         Enabled(env, trace[k], inputs[k].event) && trace[k + 1] == Step(env, trace[k], inputs[k])
  }

  /** The run leads to `s`. */
  predicate Reaches(env: Env, trace: seq<System>, inputs: seq<Input>, s: System) {
    IsTrace(env, trace, inputs) && s == trace[|inputs|]
  }

  // ------------------------------------------------------------ what every step keeps

  predicate Parsed(env: Env, s: System) {
    s.payload.Some? && ParseEnvelope(env.verify, s.payload.value, EMPTY).result == SUCCESS
  }

  /** The mail as the handler left it. */
  function EditedMail(env: Env, s: System): Mail
    requires s.payload.Some?
  {
    ApplyAll(env.verify, Delivery.Received(env.ws, s.payload.value, ParseEnvelope(env.verify, s.payload.value, EMPTY).fields), s.edits)
  }

  function TheMail(env: Env, s: System): Option<Mail> {
    if Parsed(env, s) then Some(EditedMail(env, s)) else None
  }

  predicate Relaying(s: System) {
    s.choice.Some? && !s.choice.value.Discarding? && !s.choice.value.Rejecting?
  }

  predicate RelayInv(s: System) {
    match s.relay
    case NoRelay => !Relaying(s)
    case RemoteRelay(w) => s.choice == Some(Connecting) && (w.notified == [] ==> w.reply == None)
    case ExecRelay(w) => s.choice.Some? && s.choice.value.Executing? && Exec.Inv(w)
    case RawRelay(w) => s.choice.Some? && s.choice.value.ExecutingRaw? && Raw.Inv(w) && w.output == s.choice.value.output
  }

  /** Between two events, while the connection lives; `m` is the mail, if one was parsed. */
  predicate LiveInv(s: System, m: Option<Mail>) {
    && s.conn.destroyed == 0 && s.conn.responses == [] && s.conn.logs == []
    && (s.conn.state == INIT || s.conn.state == LUA || s.conn.state == RELAYING)
    && s.conn.mail == m
    && m.None? == (s.conn.state == INIT) == s.payload.None?
    && (s.conn.state == RELAYING) == Relaying(s)
    && (s.conn.state != RELAYING ==> s.choice == None)
    && s.handling == (s.conn.state == LUA)
    && s.conn.armed == (s.choice.Some? && StartsTimer(Timeout(s.choice.value)))
    && RelayInv(s) && Notes(s.relay) == []
  }

  /** Where a success response may come from. */
  predicate Accepted(s: System, response: string) {
    s.choice.Some?
    && match s.choice.value
       case Discarding => response == "Kdiscarded"
       case Rejecting => false
       case Connecting => s.relay.RemoteRelay? && s.relay.remote.connected && s.relay.remote.reply == Some(response)
       case Executing(_, _) =>
         && s.relay.ExecRelay? && s.relay.exec.client == Some(Exec.Replied(response))
         && s.relay.exec.exit.Some? && ExitStatus.IsCleanWord(s.relay.exec.exit.value)
       case ExecutingRaw(_, _, _, output) =>
         && s.relay.RawRelay? && s.relay.raw.exit.Some? && ExitStatus.IsCleanWord(s.relay.raw.exit.value)
         && response == Raw.Expected(output, s.relay.raw.exit.value).text
  }

  predicate ResponseRight(s: System, response: string) {
    && IsValidQmqpResponse(response)
    && (s.relay.RawRelay? ==> |response| <= 256)
    && (response[0] == 'K' ==> Accepted(s, response))
  }

  /** The log of an ended connection: with a log socket and a mail one record, which carries the
      text of the response, if there was one. */
  predicate LogsRight(logging: bool, s: System, m: Option<Mail>) {
    if !logging || m.None? then s.conn.logs == []
    else if s.conn.responses != [] && s.conn.responses[0] != ""
    then s.conn.logs == [Record(m.value, Relaying(s), s.conn.responses[0][1..])]
    else (s.conn.logs == [Record(m.value, Relaying(s), "canceled")] || s.conn.logs == [Record(m.value, Relaying(s), "client error")])
  }

  /** After the connection was destroyed. */
  predicate DeadInv(logging: bool, s: System, m: Option<Mail>) {
    && s.conn.destroyed == 1
    && |s.conn.responses| <= 1
    && (s.conn.responses != [] ==> ResponseRight(s, s.conn.responses[0]))
    && LogsRight(logging, s, m)
  }

  /** What the relay was given, from its creation on. */
  predicate OutgoingInv(env: Env, s: System, m: Option<Mail>) {
    if Relaying(s) then m.Some? && s.conn.outgoing == Some(Outgoing(Kind(s.choice.value), m.value, env.cred))
    else s.conn.outgoing == None
  }

  predicate Inv(env: Env, s: System, m: Option<Mail>) {
    (if s.conn.destroyed == 0 then LiveInv(s, m) else DeadInv(env.logging, s, m)) && OutgoingInv(env, s, m)
  }

  // ------------------------------------------------------------ steps, by kind

  /** Ending a live connection with a response. */
  lemma FinishEnds(env: Env, s: System, m: Option<Mail>, response: string, sendOk: bool)
    requires s.conn.destroyed == 0 && s.conn.responses == [] && s.conn.logs == []
    requires s.conn.state != END && s.conn.mail == m && ResponseRight(s, response)
    requires (s.conn.state == RELAYING) == Relaying(s)
    ensures var t := s.(conn := AfterFinish(env.logging, s.conn, response, sendOk));
            DeadInv(env.logging, t, m) && t.conn.outgoing == s.conn.outgoing
  {
    FinishOnce(env.logging, s.conn, response, sendOk);
  }

  function MailOf(env: Env, payload: string): Option<Mail> {
    var Parsing(result, f) := ParseEnvelope(env.verify, payload, EMPTY);
    if result == SUCCESS then Some(Delivery.Received(env.ws, payload, f)) else None
  }

  lemma {:induction false} StepRequest(env: Env, s: System, payload: string, sendOk: bool)
    requires LiveInv(s, None) && s.conn.state == INIT && s.conn.outgoing == None
    ensures var conn := AfterRequest(env.verify, env.ws, env.logging, s.conn, payload, sendOk);
            var handling := ParseEnvelope(env.verify, payload, EMPTY).result == SUCCESS;
            Inv(env, s.(conn := conn, handling := handling, payload := Some(payload)), MailOf(env, payload))
  {
    var t := s.(conn := s.conn.(state := RECEIVED), handling := false, payload := Some(payload));
    match ParseEnvelope(env.verify, payload, EMPTY).result
    case SUCCESS =>
    case MALFORMED => FinishEnds(env, t, None, "Dmalformed input", sendOk);
    case BAD_ADDRESS => FinishEnds(env, t, None, "Dbad address", sendOk);
    case TOO_MANY_RECIPIENTS => FinishEnds(env, t, None, "Dtoo many recipients", sendOk);
  }

  lemma OneNote(logging: bool, c: Conn, notes: seq<Notification>, sendOk: bool)
    requires |notes| == 1 && notes[0].text != ""
    ensures AfterNotes(logging, c, notes, sendOk) == AfterFinish(logging, c, notes[0].text, sendOk)
  {
    var c' := AfterFinish(logging, c, notes[0].text, sendOk);
    assert notes[1..] == [];
    assert AfterNotes(logging, c', [], sendOk) == c';
  }

  /** A relaying connection whose relay moves on: it goes on waiting, or it ends with the answer. */
  lemma DeliverKeepsInv(env: Env, s: System, relay: Relay, m: Option<Mail>, sendOk: bool)
    requires s.conn.state == RELAYING && Relaying(s) && s.payload.Some? && m.Some? && s.conn.mail == m
    requires s.conn.destroyed == 0 && s.conn.responses == [] && s.conn.logs == []
    requires !s.handling && s.conn.armed == StartsTimer(Timeout(s.choice.value))
    requires OutgoingInv(env, s, m) && |Notes(relay)| <= 1
    requires Notes(relay) == [] ==> RelayInv(s.(relay := relay))
    requires Notes(relay) != [] ==> ResponseRight(s.(relay := relay), Notes(relay)[0].text)
    ensures Inv(env, Deliver(env, s, relay, sendOk), m)
  {
    if Notes(relay) != [] {
      OneNote(env.logging, s.conn, Notes(relay), sendOk);
      FinishEnds(env, s.(relay := relay), m, Notes(relay)[0].text, sendOk);
    }
  }

  lemma {:induction false} StepHandler(env: Env, s: System, m: Mail, choice: Choice, sendOk: bool)
    requires LiveInv(s, Some(m)) && s.conn.state == LUA && s.conn.outgoing == None
    requires Startable(choice, RelayInput(env, s, choice))
    ensures Inv(env, AfterHandler(env, s, choice, sendOk), Some(m))
  {
    if choice.Discarding? || choice.Rejecting? {
      var response := if choice.Discarding? then "Kdiscarded" else "Drejected";
      FinishEnds(env, s.(conn := s.conn.(state := NOT_RELAYING), handling := false, choice := Some(choice)), Some(m), response, sendOk);
    } else {
      StepRelaying(env, s, m, choice, sendOk);
    }
  }

  lemma {:induction false} StepRelaying(env: Env, s: System, m: Mail, choice: Choice, sendOk: bool)
    requires LiveInv(s, Some(m)) && s.conn.state == LUA
    requires Startable(choice, RelayInput(env, s, choice)) && !choice.Discarding? && !choice.Rejecting?
    ensures Inv(env, AfterHandler(env, s, choice, sendOk), Some(m))
  {
    var request := Outgoing(Kind(choice), m, env.cred);
    var conn := s.conn.(state := RELAYING, outgoing := Some(request), armed := StartsTimer(Timeout(choice)));
    var t := s.(conn := conn, handling := false, choice := Some(choice));
    assert AfterHandler(env, s, choice, sendOk) == Deliver(env, t, NewRelay(choice, request), sendOk);
    NewRelayNotes(choice, request);
    NewRelayAnswers(t, choice, request);
    DeliverKeepsInv(env, t, NewRelay(choice, request), Some(m), sendOk);
  }

  lemma NewRelayAnswers(t: System, choice: Choice, request: string)
    requires Startable(choice, request) && t.choice == Some(choice)
    requires !choice.Discarding? && !choice.Rejecting?
    ensures var relay := NewRelay(choice, request);
            && (Notes(relay) == [] ==> RelayInv(t.(relay := relay)))
            && (Notes(relay) != [] ==> ResponseRight(t.(relay := relay), Notes(relay)[0].text))
  {
    if choice.ExecutingRaw? {
      Raw.StartEstablishesInv(request, choice.output, choice.spawned, choice.first);
    }
  }

  lemma StepRemote(env: Env, s: System, m: Option<Mail>, e: Remote.Event, sendOk: bool)
    requires LiveInv(s, m) && OutgoingInv(env, s, m)
    requires s.relay.RemoteRelay? && Remote.Enabled(s.relay.remote, e)
    ensures Inv(env, Deliver(env, s, RemoteRelay(Remote.Step(s.relay.remote, e)), sendOk), m)
  {
    if e.Replies? {
      ReplyOutcomeIs(e.payload);
    }
    DeliverKeepsInv(env, s, RemoteRelay(Remote.Step(s.relay.remote, e)), m, sendOk);
  }

  lemma {:induction false} StepExec(env: Env, s: System, m: Option<Mail>, e: Exec.Event, sendOk: bool)
    requires LiveInv(s, m) && OutgoingInv(env, s, m)
    requires s.relay.ExecRelay? && Exec.Enabled(s.relay.exec, e)
    ensures Inv(env, Deliver(env, s, ExecRelay(Exec.Step(s.relay.exec, e)), sendOk), m)
  {
    ExecStepAnswers(s.relay.exec, e);
    DeliverKeepsInv(env, s, ExecRelay(Exec.Step(s.relay.exec, e)), m, sendOk);
  }

  lemma ExecStepAnswers(w: Exec.World, e: Exec.Event)
    requires Exec.Inv(w) && Exec.Enabled(w, e)
    ensures var w' := Exec.Step(w, e);
            && Exec.Inv(w') && |w'.notified| <= 1
            && (w'.notified != [] ==>
                 && IsValidQmqpResponse(w'.notified[0].text)
                 && (w'.notified[0].text[0] == 'K' ==>
                      && w'.client == Some(Exec.Replied(w'.notified[0].text))
                      && w'.exit.Some? && ExitStatus.IsCleanWord(w'.exit.value)))
  {
    Exec.StepKeepsInv(w, e);
    if Exec.Step(w, e).notified != [] {
      ExecAnswer(Exec.Step(w, e));
    }
  }

  lemma ExecAnswer(w: Exec.World)
    requires Exec.Inv(w) && w.notified != []
    ensures IsValidQmqpResponse(w.notified[0].text)
    ensures w.notified[0].text[0] == 'K' ==>
              w.client == Some(Exec.Replied(w.notified[0].text)) && w.exit.Some? && ExitStatus.IsCleanWord(w.exit.value)
  {
    if w.exit.Some? {
      ExitStatus.StatusResponseCode(w.exit.value);
      if w.client.Some? && w.client.value.Replied? {
        ReplyOutcomeIs(w.client.value.payload);
      }
    }
  }

  lemma {:induction false} StepRaw(env: Env, s: System, m: Option<Mail>, e: Raw.Event, sendOk: bool)
    requires LiveInv(s, m) && OutgoingInv(env, s, m)
    requires s.relay.RawRelay? && Raw.Enabled(s.relay.raw, e)
    ensures Inv(env, Deliver(env, s, RawRelay(Raw.Step(s.relay.raw, e)), sendOk), m)
  {
    RawStepAnswers(s.relay.raw, e);
    var w := Raw.Step(s.relay.raw, e);
    RawRelayRight(s, w);
    DeliverKeepsInv(env, s, RawRelay(w), m, sendOk);
  }

  lemma RawRelayRight(s: System, w: Raw.World)
    requires s.choice.Some? && s.choice.value.ExecutingRaw? && w.output == s.choice.value.output && Raw.Inv(w)
    requires w.notified != [] ==> RawAnswerRight(w)
    ensures RelayInv(s.(relay := RawRelay(w)))
    ensures w.notified != [] ==> ResponseRight(s.(relay := RawRelay(w)), w.notified[0].text)
  {
  }

  predicate RawAnswerRight(w: Raw.World)
    requires w.notified != []
  {
    var text := w.notified[0].text;
    && IsValidQmqpResponse(text) && |text| <= 256
    && (text[0] == 'K' ==>
         w.exit.Some? && ExitStatus.IsCleanWord(w.exit.value) && text == Raw.Expected(w.output, w.exit.value).text)
  }

  lemma {:induction false} RawStepAnswers(w: Raw.World, e: Raw.Event)
    requires Raw.Inv(w) && Raw.Enabled(w, e)
    ensures var w' := Raw.Step(w, e);
            Raw.Inv(w') && w'.output == w.output && |w'.notified| <= 1 && (w'.notified != [] ==> RawAnswerRight(w'))
  {
    Raw.StepKeepsInv(w, e);
    if Raw.Step(w, e).notified != [] {
      RawAnswer(e, Raw.Step(w, e));
    }
  }

  lemma RawAnswer(e: Raw.Event, w: Raw.World)
    requires w.notified != [] && Raw.Explains(e, w)
    ensures RawAnswerRight(w) && |w.notified| == 1
  {
    if w.exit.Some? {
      Raw.OutcomeWellFormed(Take(w.output, 255), w.exit.value);
    }
  }

  lemma {:induction false} StepOther(env: Env, s: System, m: Option<Mail>, i: Input)
    requires LiveInv(s, m) && OutgoingInv(env, s, m) && Enabled(env, s, i.event)
    requires i.event.HandlerFails? || i.event.TimerFires? || i.event.SocketError? || i.event.Disconnect?
    ensures Inv(env, Step(env, s, i), m)
  {
    match i.event
    case HandlerFails => FinishEnds(env, s.(handling := false), m, "Zscript failed", i.sendOk);
    case TimerFires => FinishEnds(env, s.(conn := s.conn.(armed := false)), m, "Ztimeout", i.sendOk);
    case SocketError => EndOnce(env.logging, s.conn);
    case Disconnect => EndOnce(env.logging, s.conn);
  }

  // ------------------------------------------------------------ all steps

  lemma {:induction false} ApplyAllSnoc(verify: string -> bool, m: Mail, edits: seq<Edit>, edit: Edit)
    ensures ApplyAll(verify, m, edits + [edit]) == Apply(verify, ApplyAll(verify, m, edits), edit)
    decreases |edits|
  {
    if edits != [] {
      assert (edits + [edit])[1..] == edits[1..] + [edit];
      ApplyAllSnoc(verify, Apply(verify, m, edits[0]), edits[1..], edit);
    }
  }

  /** The mail of a system is a matter of its payload and edits. */
  lemma TheMailIs(env: Env, s: System)
    ensures s.payload.None? ==> TheMail(env, s) == None
    ensures s.payload.Some? && s.edits == [] ==> TheMail(env, s) == MailOf(env, s.payload.value)
    ensures forall t: System :: t.payload == s.payload && t.edits == s.edits ==> TheMail(env, t) == TheMail(env, s)
  {
  }

  lemma {:induction false} EditIsApplied(env: Env, s: System, t: System, edit: Edit)
    requires t.payload == s.payload && t.edits == s.edits + [edit] && TheMail(env, s).Some?
    ensures TheMail(env, t) == Some(Apply(env.verify, TheMail(env, s).value, edit))
  {
    var m := Delivery.Received(env.ws, s.payload.value, ParseEnvelope(env.verify, s.payload.value, EMPTY).fields);
    ApplyAllSnoc(env.verify, m, s.edits, edit);
  }

  /** The invariant, with the mail determined by what client and handler did. */
  predicate Good(env: Env, s: System) {
    Inv(env, s, TheMail(env, s)) && (s.payload.None? ==> s.edits == [])
  }

  /** Events that leave the mail alone. */
  lemma {:induction false} StepKeepsMail(env: Env, s: System, m: Option<Mail>, i: Input)
    requires LiveInv(s, m) && OutgoingInv(env, s, m) && Enabled(env, s, i.event)
    requires !i.event.Request? && !i.event.EditMail?
    ensures Inv(env, Step(env, s, i), m)
  {
    match i.event
    case HandlerReturns(choice) => StepHandler(env, s, m.value, choice, i.sendOk);
    case RemoteEvent(e) => StepRemote(env, s, m, e, i.sendOk);
    case ExecEvent(e) => StepExec(env, s, m, e, i.sendOk);
    case RawEvent(e) => StepRaw(env, s, m, e, i.sendOk);
    case _ => StepOther(env, s, m, i);
  }

  lemma StepKeepsHistory(env: Env, s: System, i: Input)
    requires Enabled(env, s, i.event) && !i.event.Request? && !i.event.EditMail?
    ensures Step(env, s, i).payload == s.payload && Step(env, s, i).edits == s.edits
  {
  }

  lemma StepEdit(env: Env, s: System, m: Mail, edit: Edit, sendOk: bool)
    requires LiveInv(s, Some(m)) && OutgoingInv(env, s, Some(m)) && s.conn.state == LUA
    ensures Inv(env, Step(env, s, Input(EditMail(edit), sendOk)), Some(Apply(env.verify, m, edit)))
  {
  }

  lemma {:induction false} StepKeepsInv(env: Env, s: System, i: Input)
    requires Good(env, s) && Enabled(env, s, i.event)
    ensures Good(env, Step(env, s, i))
  {
    if i.event.Request? {
      GoodRequest(env, s, i.event.payload, i.sendOk);
    } else if i.event.EditMail? {
      GoodEdit(env, s, i.event.edit, i.sendOk);
    } else {
      TheMailIs(env, s);
      StepKeepsMail(env, s, TheMail(env, s), i);
      StepKeepsHistory(env, s, i);
    }
  }

  lemma {:induction false} GoodRequest(env: Env, s: System, payload: string, sendOk: bool)
    requires Good(env, s) && Enabled(env, s, Request(payload))
    ensures Good(env, Step(env, s, Input(Request(payload), sendOk)))
  {
    StepRequest(env, s, payload, sendOk);
    TheMailIs(env, Step(env, s, Input(Request(payload), sendOk)));
  }

  lemma {:induction false} GoodEdit(env: Env, s: System, edit: Edit, sendOk: bool)
    requires Good(env, s) && Enabled(env, s, EditMail(edit))
    ensures Good(env, Step(env, s, Input(EditMail(edit), sendOk)))
  {
    StepEdit(env, s, TheMail(env, s).value, edit, sendOk);
    EditIsApplied(env, s, Step(env, s, Input(EditMail(edit), sendOk)), edit);
  }

  lemma {:induction false} TraceIsGood(env: Env, trace: seq<System>, inputs: seq<Input>, k: nat)
    requires IsTrace(env, trace, inputs) && k < |trace|
    ensures Good(env, trace[k])
  {
    if k == 0 {
      TheMailIs(env, INITIAL);
    } else {
      TraceIsGood(env, trace, inputs, k - 1);
      assert Enabled(env, trace[k - 1], inputs[k - 1].event);
      StepKeepsInv(env, trace[k - 1], inputs[k - 1]);
    }
  }

  // ------------------------------------------------------------ main results

  /** Acceptance safety: in every run, a response starting with K means that the handler discarded
      the mail, or the server connected to replied with this response, or the executed program
      did and exited with 0, or the raw program exited with 0 and this is its output. No
      timeout, error, rejection or script failure looks like a success. */
  lemma {:induction false} AcceptanceSafety(env: Env, trace: seq<System>, inputs: seq<Input>, s: System, response: string)
    requires Reaches(env, trace, inputs, s) && response in s.conn.responses
    ensures response != "" && (response[0] == 'K' ==> Accepted(s, response))
  {
    TraceIsGood(env, trace, inputs, |inputs|);
    ResponsesRight(env, s, TheMail(env, s), response);
  }

  lemma ResponsesRight(env: Env, s: System, m: Option<Mail>, response: string)
    requires Inv(env, s, m) && response in s.conn.responses
    ensures response != "" && (response[0] == 'K' ==> Accepted(s, response))
  {
    assert s.conn.responses[0] == response;
  }

  /** The client's side ends the connection. */
  predicate CutsShort(e: Event) {
    e.SocketError? || e.Disconnect?
  }

  predicate WasCutShort(inputs: seq<Input>) {
    exists k :: 0 <= k < |inputs| && CutsShort(inputs[k].event)
  }

  /** How often the connection was destroyed without having answered. */
  function Unanswered(c: Conn): int {
    c.destroyed - |c.responses|
  }

  lemma FinishAnswers(logging: bool, c: Conn, response: string, sendOk: bool)
    requires response != ""
    ensures Unanswered(AfterFinish(logging, c, response, sendOk)) == Unanswered(c)
  {
  }

  lemma {:induction false} NotesAnswer(logging: bool, c: Conn, notes: seq<Notification>, sendOk: bool)
    ensures Unanswered(AfterNotes(logging, c, notes, sendOk)) == Unanswered(c)
    decreases |notes|
  {
    if notes != [] && notes[0].text != "" {
      FinishAnswers(logging, c, notes[0].text, sendOk);
      NotesAnswer(logging, AfterFinish(logging, c, notes[0].text, sendOk), notes[1..], sendOk);
    }
  }

  lemma {:induction false} HandlerAnswers(env: Env, s: System, choice: Choice, sendOk: bool)
    requires s.conn.mail.Some? && Startable(choice, RelayInput(env, s, choice))
    ensures Unanswered(AfterHandler(env, s, choice, sendOk).conn) == Unanswered(s.conn)
  {
    var conn := AfterLuaFinished(env.logging, s.conn, env.cred, Some(Kind(choice)), Timeout(choice), sendOk);
    assert Unanswered(conn) == Unanswered(s.conn);
    NotesAnswer(env.logging, conn, Notes(NewRelay(choice, RelayInput(env, s, choice))), sendOk);
  }

  lemma {:induction false} RequestAnswers(env: Env, c: Conn, payload: string, sendOk: bool)
    ensures Unanswered(AfterRequest(env.verify, env.ws, env.logging, c, payload, sendOk)) == Unanswered(c)
  {
    match ParseEnvelope(env.verify, payload, EMPTY).result
    case SUCCESS =>
    case MALFORMED => FinishAnswers(env.logging, c.(state := RECEIVED), "Dmalformed input", sendOk);
    case BAD_ADDRESS => FinishAnswers(env.logging, c.(state := RECEIVED), "Dbad address", sendOk);
    case TOO_MANY_RECIPIENTS => FinishAnswers(env.logging, c.(state := RECEIVED), "Dtoo many recipients", sendOk);
  }

  /** Only the client's side ends the connection without an answer. */
  lemma {:induction false} StepAnswers(env: Env, s: System, i: Input)
    requires Enabled(env, s, i.event)
    ensures Unanswered(Step(env, s, i).conn) == Unanswered(s.conn) + (if CutsShort(i.event) then 1 else 0)
  {
    match i.event
    case Request(payload) => RequestAnswers(env, s.conn, payload, i.sendOk);
    case EditMail(_) =>
    case HandlerReturns(choice) =>
      if s.conn.mail.Some? {
        HandlerAnswers(env, s, choice, i.sendOk);
      }
    case HandlerFails => FinishAnswers(env.logging, s.conn, "Zscript failed", i.sendOk);
    case RemoteEvent(re) => DeliverAnswers(env, s, RemoteRelay(Remote.Step(s.relay.remote, re)), i.sendOk);
    case ExecEvent(ee) => DeliverAnswers(env, s, ExecRelay(Exec.Step(s.relay.exec, ee)), i.sendOk);
    case RawEvent(we) => DeliverAnswers(env, s, RawRelay(Raw.Step(s.relay.raw, we)), i.sendOk);
    case TimerFires => FinishAnswers(env.logging, s.conn.(armed := false), "Ztimeout", i.sendOk);
    case SocketError => EndsUnanswered(env.logging, s.conn);
    case Disconnect => EndsUnanswered(env.logging, s.conn);
  }

  lemma {:induction false} DeliverAnswers(env: Env, s: System, relay: Relay, sendOk: bool)
    ensures Unanswered(Deliver(env, s, relay, sendOk).conn) == Unanswered(s.conn)
  {
    NotesAnswer(env.logging, s.conn, Notes(relay), sendOk);
  }

  lemma EndsUnanswered(logging: bool, c: Conn)
    ensures Unanswered(AfterError(logging, c)) == Unanswered(AfterDestroy(logging, c)) == Unanswered(c) + 1
  {
  }

  lemma {:induction false} TraceAnswers(env: Env, trace: seq<System>, inputs: seq<Input>, k: nat)
    requires IsTrace(env, trace, inputs) && k < |trace|
    ensures Unanswered(trace[k].conn) >= 0
    ensures Unanswered(trace[k].conn) > 0 <==> WasCutShort(inputs[..k])
  {
    if k > 0 {
      TraceAnswers(env, trace, inputs, k - 1);
      NextAnswers(env, trace, inputs, k - 1);
    }
  }

  lemma {:induction false} NextAnswers(env: Env, trace: seq<System>, inputs: seq<Input>, k: nat)
    requires IsTrace(env, trace, inputs) && k < |inputs|
    ensures Unanswered(trace[k + 1].conn) == Unanswered(trace[k].conn) + (if CutsShort(inputs[k].event) then 1 else 0)
    ensures WasCutShort(inputs[..k + 1]) <==> WasCutShort(inputs[..k]) || CutsShort(inputs[k].event)
  {
    assert Enabled(env, trace[k], inputs[k].event);
    StepAnswers(env, trace[k], inputs[k]);
    assert inputs[..k + 1] == inputs[..k] + [inputs[k]];
    CutShortBy(inputs[..k], inputs[k]);
  }

  lemma CutShortBy(inputs: seq<Input>, i: Input)
    ensures WasCutShort(inputs + [i]) <==> WasCutShort(inputs) || CutsShort(i.event)
  {
    var all := inputs + [i];
    assert all[|inputs|] == i;
    if k :| 0 <= k < |inputs| && CutsShort(inputs[k].event) {
      assert all[k] == inputs[k];
    }
  }

  /** Life cycle: the connection is destroyed at most once, and a connection that is gone has
      attempted exactly one response, unless the client's side ended it, and then none. A
      response is a QMQP response, of at most 256 bytes if a raw program wrote it. */
  lemma {:induction false} LifeCycle(env: Env, trace: seq<System>, inputs: seq<Input>, s: System)
    requires Reaches(env, trace, inputs, s)
    ensures s.conn.destroyed <= 1
    ensures s.conn.destroyed == |s.conn.responses| + (if WasCutShort(inputs) then 1 else 0)
    ensures forall r :: r in s.conn.responses ==>
              IsValidQmqpResponse(r) && (s.relay.RawRelay? ==> |r| <= 256)
  {
    TraceIsGood(env, trace, inputs, |inputs|);
    OneEnd(env, s, TheMail(env, s));
    TraceAnswers(env, trace, inputs, |inputs|);
    assert inputs[..|inputs|] == inputs;
  }

  lemma OneEnd(env: Env, s: System, m: Option<Mail>)
    requires Inv(env, s, m)
    ensures s.conn.destroyed <= 1
    ensures forall r :: r in s.conn.responses ==>
              IsValidQmqpResponse(r) && (s.relay.RawRelay? ==> |r| <= 256)
  {
    if s.conn.responses != [] {
      assert ResponseRight(s, s.conn.responses[0]);
    }
  }

  /** What the callback an event leads to relies on: the assertions in the code (those of `Finish`
      and `Log` included), an open mail object, and one nonempty notification at most. */
  predicate CallbackReady(env: Env, s: System, e: Event)
    requires Enabled(env, s, e)
  {
    && ConnInv(env.logging, s.conn) && s.conn.state != END
    && match e
       case Request(_) => s.conn.state == INIT
       case EditMail(_) => s.conn.state == LUA && s.conn.mail.Some? && !s.conn.mail.value.stale
       case HandlerReturns(choice) =>
         && s.conn.state == LUA && s.conn.mail.Some?
         && AtMostOneNote(Notes(NewRelay(choice, RelayInput(env, s, choice))))
       case HandlerFails => s.conn.state == LUA && s.conn.mail.Some?
       case RemoteEvent(re) => s.conn.state == RELAYING && AtMostOneNote(Remote.Step(s.relay.remote, re).notified)
       case ExecEvent(ee) => s.conn.state == RELAYING && AtMostOneNote(Exec.Step(s.relay.exec, ee).notified)
       case RawEvent(we) => s.conn.state == RELAYING && AtMostOneNote(Raw.Step(s.relay.raw, we).notified)
       case TimerFires => s.conn.state == RELAYING
       case SocketError => true
       case Disconnect => true
  }

  predicate AtMostOneNote(notes: seq<Notification>) {
    |notes| <= 1 && (notes != [] ==> notes[0].text != "")
  }

  /** In every run, every callback finds what it asserts: the order in which server, handler, relay
      and timer work, each by its own state, is enough. */
  lemma {:induction false} AssertsHold(env: Env, trace: seq<System>, inputs: seq<Input>, s: System, e: Event)
    requires Reaches(env, trace, inputs, s) && Enabled(env, s, e)
    ensures CallbackReady(env, s, e)
  {
    TraceIsGood(env, trace, inputs, |inputs|);
    if s.payload.Some? {
      EditedMailFacts(env, s);
    }
    Ready(env, s, TheMail(env, s), e);
  }

  lemma Ready(env: Env, s: System, m: Option<Mail>, e: Event)
    requires LiveInv(s, m) && (m.Some? ==> !m.value.stale) && Enabled(env, s, e)
    ensures CallbackReady(env, s, e)
  {
    LiveConn(env.logging, s, m);
    match e
    case HandlerReturns(choice) => NewRelayNotes(choice, RelayInput(env, s, choice));
    case ExecEvent(ee) => ExecStepAnswers(s.relay.exec, ee);
    case RawEvent(we) => RawStepAnswers(s.relay.raw, we);
    case _ =>
  }

  lemma NewRelayNotes(choice: Choice, request: string)
    requires Startable(choice, request)
    ensures AtMostOneNote(Notes(NewRelay(choice, request)))
  {
    if choice.ExecutingRaw? {
      Raw.StartEstablishesInv(request, choice.output, choice.spawned, choice.first);
    }
  }

  lemma LiveConn(logging: bool, s: System, m: Option<Mail>)
    requires LiveInv(s, m)
    ensures ConnInv(logging, s.conn) && s.conn.state != END && s.conn.mail == m
  {
  }

  lemma EditedMailFacts(env: Env, s: System)
    requires s.payload.Some?
    ensures EditedMail(env, s).buffer == s.payload.value && !EditedMail(env, s).stale
  {
    var m := Delivery.Received(env.ws, s.payload.value, ParseEnvelope(env.verify, s.payload.value, EMPTY).fields);
    EditsAchieve(env.verify, m, s.edits);
  }

  /** Logging: with a log socket, a parsed mail has exactly one record when the connection is gone,
      whatever ended it; the record carries the response, and as sent traffic the payload and
      the inserted headers if relaying had begun, else 0. Otherwise there is no record. */
  lemma {:induction false} LogOnce(env: Env, trace: seq<System>, inputs: seq<Input>, s: System)
    requires Reaches(env, trace, inputs, s)
    ensures s.conn.destroyed == 0 ==> s.conn.logs == []
    ensures s.conn.destroyed == 1 ==> LogsRight(env.logging, s, TheMail(env, s))
    ensures env.logging && Parsed(env, s) && s.conn.destroyed == 1 ==>
              && |s.conn.logs| == 1
              && s.conn.logs[0].received == |s.payload.value|
              && s.conn.logs[0].sent == (if Relaying(s) then |s.payload.value| + |Concat(EditedMail(env, s).headers)| else 0)
  {
    TraceIsGood(env, trace, inputs, |inputs|);
    LogFacts(env, s, TheMail(env, s));
    if Parsed(env, s) {
      EditedMailFacts(env, s);
    }
  }

  lemma LogFacts(env: Env, s: System, m: Option<Mail>)
    requires Inv(env, s, m)
    ensures s.conn.destroyed == 0 ==> s.conn.logs == []
    ensures s.conn.destroyed == 1 ==> LogsRight(env.logging, s, m)
    ensures env.logging && m.Some? && s.conn.destroyed == 1 ==>
              && |s.conn.logs| == 1
              && s.conn.logs[0].received == |m.value.buffer|
              && s.conn.logs[0].sent == (if Relaying(s) then |m.value.buffer| + |Concat(m.value.headers)| else 0)
  {
  }

  /** Delivery: once relaying has begun, the bytes given to a QMQP relay are a mail again, with the
      added fields in front of the stripped message, the current sender and the recipients the
      client sent; a raw program gets the same message without envelope. */
  lemma {:induction false} WhatIsRelayed(env: Env, trace: seq<System>, inputs: seq<Input>, s: System)
    requires Reaches(env, trace, inputs, s) && Relaying(s)
    ensures Parsed(env, s) && s.conn.outgoing.Some?
    ensures var f := ParseEnvelope(env.verify, s.payload.value, EMPTY).fields;
            var g := Delivery.Relayed(env.verify, env.ws, f, Delivery.Hop(env.cred, s.edits));
            if s.choice.value.ExecutingRaw? then s.conn.outgoing.value == g.message
            else Delivery.Fits(g) ==> ParseEnvelope(env.verify, s.conn.outgoing.value, EMPTY) == Parsing(SUCCESS, g)
  {
    TraceIsGood(env, trace, inputs, |inputs|);
    OutgoingMeans(env, s);
  }

  lemma {:induction false} OutgoingMeans(env: Env, s: System)
    requires OutgoingInv(env, s, TheMail(env, s)) && Relaying(s)
    ensures Parsed(env, s) && s.conn.outgoing.Some?
    ensures var f := ParseEnvelope(env.verify, s.payload.value, EMPTY).fields;
            var g := Delivery.Relayed(env.verify, env.ws, f, Delivery.Hop(env.cred, s.edits));
            if s.choice.value.ExecutingRaw? then s.conn.outgoing.value == g.message
            else Delivery.Fits(g) ==> ParseEnvelope(env.verify, s.conn.outgoing.value, EMPTY) == Parsing(SUCCESS, g)
  {
    var f := ParseEnvelope(env.verify, s.payload.value, EMPTY).fields;
    var hop := Delivery.Hop(env.cred, s.edits);
    Delivery.AddedBytes(env.verify, env.ws, s.payload.value, f, hop);
    if Delivery.Fits(Delivery.Relayed(env.verify, env.ws, f, hop)) {
      Delivery.RelayMeaning(env.verify, env.ws, s.payload.value, f, hop);
    }
  }

  // ------------------------------------------------------------ every run ends

  /** What a relay still has to go through. */
  function RelayWork(relay: Relay): nat {
    match relay
    case NoRelay => 0
    case RemoteRelay(w) => if w.notified != [] then 0 else if w.connected then 1 else 2
    case ExecRelay(w) => Exec.Awaited(w)
    case RawRelay(w) => Raw.Measure(w)
  }

  /** What the relay for the action could have to go through from its start. */
  function RelayBudget(s: System): nat {
    match s.choice
    case Some(Connecting) => 2
    case Some(Executing(_, _)) => 2
    case Some(ExecutingRaw(_, _, _, output)) =>
      2 * |output| + (if s.conn.outgoing.Some? then |s.conn.outgoing.value| else 0) + 5
    case _ => 0
  }

  /** After `k` events: each was an edit, the request, the handler's end, progress of the relay, or
      the one that ended the connection. */
  predicate Counted(s: System, k: nat) {
    if s.conn.destroyed == 0
    then k + RelayWork(s.relay) <= |s.edits| + (if s.payload.Some? then 1 else 0) + (if s.choice.Some? then 1 else 0) + RelayBudget(s)
    else k <= |s.edits| + 3 + RelayBudget(s)
  }

  lemma NewRelayWork(choice: Choice, request: string)
    requires Startable(choice, request)
    ensures RelayWork(NewRelay(choice, request))
         <= match choice
            case Connecting => 2
            case Executing(_, _) => 2
            case ExecutingRaw(_, _, _, output) => 2 * |output| + |request| + 5
            case _ => 0
  {
  }

  lemma NotesKeepOutgoing(logging: bool, c: Conn, notes: seq<Notification>, sendOk: bool)
    ensures AfterNotes(logging, c, notes, sendOk).outgoing == c.outgoing
    decreases |notes|
  {
  }

  lemma {:induction false} CountedHandler(env: Env, s: System, m: Mail, choice: Choice, sendOk: bool, k: nat)
    requires LiveInv(s, Some(m)) && s.conn.state == LUA && s.conn.outgoing == None && Counted(s, k)
    requires Startable(choice, RelayInput(env, s, choice))
    ensures Counted(AfterHandler(env, s, choice, sendOk), k + 1)
  {
    var request := RelayInput(env, s, choice);
    NewRelayWork(choice, request);
    var conn := AfterLuaFinished(env.logging, s.conn, env.cred, Some(Kind(choice)), Timeout(choice), sendOk);
    NotesKeepOutgoing(env.logging, conn, Notes(NewRelay(choice, request)), sendOk);
  }

  lemma {:induction false} CountedRelay(env: Env, s: System, relay: Relay, sendOk: bool, k: nat)
    requires s.conn.destroyed == 0 && Counted(s, k) && RelayWork(relay) < RelayWork(s.relay)
    ensures Counted(Deliver(env, s, relay, sendOk), k + 1)
  {
    NotesKeepOutgoing(env.logging, s.conn, Notes(relay), sendOk);
  }

  /** Every event of a relay is progress. */
  lemma RelayProgresses(env: Env, s: System, m: Option<Mail>, e: Event)
    requires LiveInv(s, m) && Enabled(env, s, e)
    ensures e.RemoteEvent? ==> RelayWork(RemoteRelay(Remote.Step(s.relay.remote, e.remoteEvent))) < RelayWork(s.relay)
    ensures e.ExecEvent? ==> RelayWork(ExecRelay(Exec.Step(s.relay.exec, e.execEvent))) < RelayWork(s.relay)
    ensures e.RawEvent? ==> RelayWork(RawRelay(Raw.Step(s.relay.raw, e.rawEvent))) < RelayWork(s.relay)
  {
    if e.RawEvent? {
      Raw.StepProgresses(s.relay.raw, e.rawEvent);
    }
  }

  lemma {:induction false} StepCounted(env: Env, s: System, i: Input, k: nat)
    requires Good(env, s) && Enabled(env, s, i.event) && Counted(s, k)
    ensures Counted(Step(env, s, i), k + 1)
  {
    RelayProgresses(env, s, TheMail(env, s), i.event);
    match i.event
    case HandlerReturns(choice) => CountedHandler(env, s, s.conn.mail.value, choice, i.sendOk, k);
    case RemoteEvent(e) => CountedRelay(env, s, RemoteRelay(Remote.Step(s.relay.remote, e)), i.sendOk, k);
    case ExecEvent(e) => CountedRelay(env, s, ExecRelay(Exec.Step(s.relay.exec, e)), i.sendOk, k);
    case RawEvent(e) => CountedRelay(env, s, RawRelay(Raw.Step(s.relay.raw, e)), i.sendOk, k);
    case _ => CountedOther(env, s, TheMail(env, s), i, k);
  }

  lemma {:induction false} CountedOther(env: Env, s: System, m: Option<Mail>, i: Input, k: nat)
    requires LiveInv(s, m) && OutgoingInv(env, s, m) && Enabled(env, s, i.event) && Counted(s, k)
    requires !i.event.HandlerReturns? && !i.event.RemoteEvent? && !i.event.ExecEvent? && !i.event.RawEvent?
    ensures Counted(Step(env, s, i), k + 1)
  {
  }

  lemma {:induction false} TraceCounted(env: Env, trace: seq<System>, inputs: seq<Input>, k: nat)
    requires IsTrace(env, trace, inputs) && k < |trace|
    ensures Counted(trace[k], k)
  {
    if k == 0 {
      NothingCounted();
    } else {
      TraceCounted(env, trace, inputs, k - 1);
      NextCounted(env, trace, inputs, k - 1);
    }
  }

  lemma NextCounted(env: Env, trace: seq<System>, inputs: seq<Input>, k: nat)
    requires IsTrace(env, trace, inputs) && k < |inputs| && Counted(trace[k], k)
    ensures Counted(trace[k + 1], k + 1)
  {
    TraceIsGood(env, trace, inputs, k);
    assert Enabled(env, trace[k], inputs[k].event);
    StepCounted(env, trace[k], inputs[k], k);
  }

  lemma NothingCounted()
    ensures Counted(INITIAL, 0)
  {
  }

  predicate OfRelay(e: Event) {
    e.RemoteEvent? || e.ExecEvent? || e.RawEvent?
  }

  /** Events by which the parts do what is expected of them, without any failure. */
  predicate Advances(e: Event) {
    match e
    case Request(_) => true
    case HandlerReturns(_) => true
    case RemoteEvent(re) => re.Connected? || re.Replies?
    case ExecEvent(ee) => ee.ChildExits? || ee.result.Replied?
    case RawEvent(we) => !Raw.IsIoError(we)
    case _ => false
  }

  /** While a mail is being relayed, the relay can go on without a failure and without the timer,
      and every event it sees is progress. */
  lemma {:induction false} RelayNeverStuck(env: Env, trace: seq<System>, inputs: seq<Input>, s: System) returns (e: Event)
    requires Reaches(env, trace, inputs, s) && s.conn.destroyed == 0 && Relaying(s)
    ensures Enabled(env, s, e) && Advances(e) && OfRelay(e)
    ensures forall i: Input :: Enabled(env, s, i.event) && OfRelay(i.event) ==>
              RelayWork(Step(env, s, i).relay) < RelayWork(s.relay)
  {
    TraceIsGood(env, trace, inputs, |inputs|);
    e := NextRelayEvent(env, s, TheMail(env, s));
    forall i: Input | Enabled(env, s, i.event) && OfRelay(i.event)
      ensures RelayWork(Step(env, s, i).relay) < RelayWork(s.relay)
    {
      RelayProgresses(env, s, TheMail(env, s), i.event);
    }
  }

  lemma NextRelayEvent(env: Env, s: System, m: Option<Mail>) returns (e: Event)
    requires LiveInv(s, m) && Relaying(s)
    ensures Enabled(env, s, e) && Advances(e) && OfRelay(e)
  {
    match s.relay
    case RemoteRelay(w) =>
      e := RemoteEvent(if w.connected then Remote.Replies("K") else Remote.Connected);
    case ExecRelay(w) =>
      e := ExecEvent(if w.exec.pidfd then Exec.ChildExits(0) else Exec.ClientDone(Exec.Replied("K")));
    case RawRelay(w) =>
      var we := Raw.NeverStuck(w);
      e := RawEvent(we);
  }

  /** A connection that still lives can go on, whatever it is at. */
  lemma {:induction false} NextEvent(env: Env, s: System, m: Option<Mail>) returns (e: Event)
    requires LiveInv(s, m)
    ensures Enabled(env, s, e) && Advances(e)
  {
    if s.conn.state == INIT {
      e := Request("");
    } else if s.conn.state == LUA {
      e := HandlerReturns(Discarding);
    } else {
      e := NextRelayEvent(env, s, m);
    }
  }

  /** Every run ends, with an answer: apart from the handler's edits and three more events (the
      request, the handler's end, the end of the connection) there are only the relay's events,
      at most two, or those a raw program's input and output make. A run in which nothing that
      is awaited is left has destroyed the connection; it made exactly one response unless the
      client's side ended it. */
  lemma {:induction false} EveryRunAnswers(env: Env, trace: seq<System>, inputs: seq<Input>, s: System)
    requires Reaches(env, trace, inputs, s)
    ensures |inputs| <= |s.edits| + 3 + RelayBudget(s)
    ensures (forall e :: Enabled(env, s, e) ==> !Advances(e)) ==>
              s.conn.destroyed == 1 && |s.conn.responses| == (if WasCutShort(inputs) then 0 else 1)
  {
    TraceIsGood(env, trace, inputs, |inputs|);
    TraceCounted(env, trace, inputs, |inputs|);
    LifeCycle(env, trace, inputs, s);
    if s.conn.destroyed == 0 {
      WorkInBudget(env, s, TheMail(env, s), |inputs|);
      var e := NextEvent(env, s, TheMail(env, s));
    }
  }

  lemma WorkInBudget(env: Env, s: System, m: Option<Mail>, k: nat)
    requires LiveInv(s, m) && Counted(s, k)
    ensures k <= |s.edits| + 3 + RelayBudget(s)
  {
  }
}
