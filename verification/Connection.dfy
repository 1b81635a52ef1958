/** src/Connection.cxx: the life of one client connection, from its request to the one response.
    `delete this` is counted in `destroyed`; sending a response either works, or has already
    run the error callback. A callback out of `Resume` or of a relay's `Start` happens in tail
    position, so it is the same as the callback right afterwards. */
module ConnectionModel {
  import opened Base
  import opened QmqpMailModel
  import opened MailModel
  import opened HeaderText
  import opened BasicRelayModel
  import opened ActionModel
  import opened RawExecRelayModel
  import opened ExecRelayModel
  import Delivery

  datatype State = INIT | RECEIVED | LUA | NOT_RELAYING | RELAYING | END

  /** A log datagram before formatting: text, account, traffic in and out, and mail length. */
  datatype LogRecord = LogRecord(text: string, account: string, received: nat, sent: nat, length: nat)

  /** `outgoing` is the bytes the relay was created with, `armed` whether the relay timer runs. */
  datatype Conn = Conn(
    state: State,
    mail: Option<Mail>,
    outgoing: Option<string>,
    armed: bool,
    responses: seq<string>,
    logs: seq<LogRecord>,
    destroyed: nat)

  const NEW_CONNECTION := Conn(INIT, None, None, false, [], [], 0)

  // ------------------------------------------------------------ log records

  function AddressList(recipients: seq<string>): string {
    if recipients == [] then ""
    else
      var n := |recipients| - 1;
      AddressList(recipients[..n]) + (if n > 0 then "," else "") + "<" + recipients[n] + ">"
  }

  lemma NextAddress(prefix: string, recipients: seq<string>, i: nat)
    requires i < |recipients|
    ensures prefix + AddressList(recipients[..i]) + (if i > 0 then "," else "") + ("<" + recipients[i] + ">")
         == prefix + AddressList(recipients[..i + 1])
  {
    assert recipients[..i + 1][..i] == recipients[..i];
  }

  /** `parts` with commas in between. */
  function Joined(parts: seq<string>): string {
    if parts == [] then "" else if |parts| == 1 then parts[0] else parts[0] + "," + Joined(parts[1..])
  }

  function Bracketed(addresses: seq<string>): seq<string> {
    seq(|addresses|, i requires 0 <= i < |addresses| => "<" + addresses[i] + ">")
  }

  lemma {:induction false} JoinedSnoc(parts: seq<string>, last: string)
    requires parts != []
    ensures Joined(parts + [last]) == Joined(parts) + "," + last
  {
    var all := parts + [last];
    if |parts| == 1 {
      assert all[1..] == [last];
    } else {
      assert all[1..] == parts[1..] + [last];
      JoinedSnoc(parts[1..], last);
    }
  }

  lemma {:induction false} AddressListIs(addresses: seq<string>)
    ensures AddressList(addresses) == Joined(Bracketed(addresses))
  {
    if addresses != [] {
      var n := |addresses| - 1;
      AddressListIs(addresses[..n]);
      assert Bracketed(addresses) == Bracketed(addresses[..n]) + ["<" + addresses[n] + ">"];
      if n > 0 {
        JoinedSnoc(Bracketed(addresses[..n]), "<" + addresses[n] + ">");
      }
    }
  }

  function LogText(f: Envelope, message: string): string {
    "from=<" + f.sender + "> to=" + AddressList(f.recipients) + (if message != "" then " " + message else "")
  }

  function Record(m: Mail, relaying: bool, message: string): LogRecord {
    var added := |Concat(m.headers)|;
    LogRecord(LogText(m.envelope, message), m.account, |m.buffer|,
              if relaying then |m.buffer| + added else 0, |m.envelope.message| + added)
  }

  // ------------------------------------------------------------ callbacks as functions

  function AfterLog(logging: bool, c: Conn, message: string): Conn {
    if !logging || c.mail.None? then c
    else c.(logs := c.logs + [Record(c.mail.value, c.state == RELAYING, message)], state := END, mail := None)
  }

  function AfterDestroy(logging: bool, c: Conn): Conn {
    AfterLog(logging, c, "canceled").(destroyed := c.destroyed + 1)
  }

  function AfterError(logging: bool, c: Conn): Conn {
    AfterDestroy(logging, AfterLog(logging, c, "client error"))
  }

  function AfterFinish(logging: bool, c: Conn, response: string, sendOk: bool): Conn
    requires response != ""
  {
    var c' := AfterLog(logging, c, response[1..]);
    var c'' := c'.(responses := c'.responses + [response]);
    if sendOk then AfterDestroy(logging, c'') else AfterError(logging, c'')
  }

  function AfterRequest(verify: string -> bool, ws: char -> bool, logging: bool, c: Conn, payload: string, sendOk: bool): Conn {
    var Parsing(result, f) := ParseEnvelope(verify, payload, EMPTY);
    match result
    case SUCCESS => c.(state := LUA, mail := Some(Delivery.Received(ws, payload, f)))
    case MALFORMED => AfterFinish(logging, c.(state := RECEIVED), "Dmalformed input", sendOk)
    case BAD_ADDRESS => AfterFinish(logging, c.(state := RECEIVED), "Dbad address", sendOk)
    case TOO_MANY_RECIPIENTS => AfterFinish(logging, c.(state := RECEIVED), "Dtoo many recipients", sendOk)
  }

  /** The bytes a relay for `kind` is created with. */
  function Outgoing(kind: ActionType, m: Mail, cred: Option<Cred>): string {
    if kind == EXEC_RAW then OutgoingMessage(m, cred)
    else Wire(OutgoingMessage(m, cred), m.envelope.sender, m.envelope.tail)
  }

  function OutgoingMessage(m: Mail, cred: Option<Cred>): string {
    Concat(AdditionalHeaders(m.headers, cred)) + m.envelope.message
  }

  /** Does an action with this timeout start the relay timer? */
  predicate StartsTimer(timeout: Option<real>) {
    timeout.Some? && timeout.value > 0.0
  }

  /** `kind` is the type of the action the handler returned, if it returned one. */
  function AfterLuaFinished(logging: bool, c: Conn, cred: Option<Cred>, kind: Option<ActionType>, timeout: Option<real>, sendOk: bool): Conn
    requires kind.Some? ==> c.mail.Some? && kind.value != UNDEFINED
  {
    if kind.None? then AfterFinish(logging, c, "Zscript failed", sendOk)
    else if kind.value == DISCARD then AfterFinish(logging, c.(state := NOT_RELAYING), "Kdiscarded", sendOk)
    else if kind.value == REJECT then AfterFinish(logging, c.(state := NOT_RELAYING), "Drejected", sendOk)
    else
      c.(state := RELAYING, outgoing := Some(Outgoing(kind.value, c.mail.value, cred)),
         armed := c.armed || StartsTimer(timeout))
  }

  // ------------------------------------------------------------ what every callback keeps

  /** Between two callbacks. */
  predicate ConnInv(logging: bool, c: Conn) {
    && c.destroyed <= 1
    && |c.responses| <= 1 && |c.logs| <= 1
    && (c.destroyed == 0 ==>
        && (c.state == INIT || c.state == LUA || c.state == RELAYING)
        && c.mail.Some? == (c.state != INIT)
        && c.responses == [] && c.logs == [])
    && (c.destroyed == 1 && !logging ==> c.logs == [])
  }

  /** Finishing a live connection, whatever the fate of the response: one response, one log record
      if there is a mail and a log socket, one destruction. */
  lemma FinishOnce(logging: bool, c: Conn, response: string, sendOk: bool)
    requires c.destroyed == 0 && c.responses == [] && c.logs == [] && c.state != END && response != ""
    ensures var d := AfterFinish(logging, c, response, sendOk);
            && d.destroyed == 1 && d.responses == [response]
            && d.logs == (if logging && c.mail.Some? then [Record(c.mail.value, c.state == RELAYING, response[1..])] else [])
            && d.outgoing == c.outgoing
  {
  }

  /** A live connection that ends without a response. */
  lemma EndOnce(logging: bool, c: Conn)
    requires c.destroyed == 0 && c.responses == [] && c.logs == [] && c.state != END
    ensures var (d, e) := (AfterDestroy(logging, c), AfterError(logging, c));
            && d.destroyed == e.destroyed == 1 && d.responses == e.responses == []
            && d.logs == (if logging && c.mail.Some? then [Record(c.mail.value, c.state == RELAYING, "canceled")] else [])
            && e.logs == (if logging && c.mail.Some? then [Record(c.mail.value, c.state == RELAYING, "client error")] else [])
            && d.outgoing == e.outgoing == c.outgoing
  {
  }

  /** The added header size in a log record is what the inserted headers add to the message. */
  lemma LoggedLength(m: Mail, cred: Option<Cred>, relaying: bool, message: string)
    ensures |OutgoingMessage(m, cred)|
         == Record(m, relaying, message).length + (if cred.Some? then |ReceivedLine(cred.value)| else 0)
  {
    if cred.Some? {
      ConcatSnoc(m.headers, ReceivedLine(cred.value));
    } else {
      assert m.headers + [] == m.headers;
    }
  }

  // ------------------------------------------------------------ the class

  /** The relay a connection owns. */
  datatype RelayOperation =
    | NoOperation
    | RemoteOperation(remote: BasicRelay)
    | ExecOperation(exec: ExecRelay)
    | RawOperation(raw: RawExecRelay)

  class QmqpRelayConnection {
    const verify: string -> bool
    const ws: char -> bool
    const logging: bool
    const peerCred: Option<Cred>

    var state: State
    var mailPtr: IncomingMail?
    var relayOperation: RelayOperation
    /** Whether `relay_timeout` is scheduled. */
    var relayTimer: bool
    ghost var outgoing: Option<string>
    ghost var responses: seq<string>
    ghost var logs: seq<LogRecord>
    ghost var destroyed: nat

    constructor (verify: string -> bool, ws: char -> bool, logging: bool, peerCred: Option<Cred>)
      ensures Value() == NEW_CONNECTION
      ensures this.verify == verify && this.ws == ws && this.logging == logging && this.peerCred == peerCred
    {
      this.verify, this.ws, this.logging, this.peerCred := verify, ws, logging, peerCred;
      state, mailPtr, relayOperation, relayTimer := INIT, null, NoOperation, false;
      outgoing, responses, logs, destroyed := None, [], [], 0;
    }

    ghost function Value(): Conn
      reads this, mailPtr, if mailPtr != null then {mailPtr.base} else {}
    {
      Conn(state, if mailPtr == null then None else Some(mailPtr.Value()), outgoing, relayTimer, responses, logs, destroyed)
    }

    /** May be deleted: it was not yet, and a mail that is still there was not logged. */
    ghost predicate Alive()
      reads this
    {
      destroyed == 0 && (mailPtr != null ==> state != END)
    }

    method Log(message: string)
      requires mailPtr != null && state != END
      modifies this`state, this`mailPtr, this`logs
      ensures Value() == AfterLog(logging, old(Value()), message)
    {
      if !logging {
        return;
      }
      var text := "from=<" + mailPtr.base.sender + "> to=";
      ghost var prefix := text;
      var recipients := mailPtr.base.recipients;
      var comma, i := false, 0;
      while i < |recipients|
        invariant 0 <= i <= |recipients| && comma == (i > 0)
        invariant text == prefix + AddressList(recipients[..i])
        modifies {}
      {
        NextAddress(prefix, recipients, i);
        if comma {
          text := text + ",";
        }
        comma := true;
        text := text + ("<" + recipients[i] + ">");
        i := i + 1;
      }
      assert recipients[..i] == recipients;
      if message != "" {
        text := text + (" " + message);
      }
      assert text == LogText(mailPtr.base.Fields(), message);
      var added := TotalSize(mailPtr.headers);
      var received := |mailPtr.buffer|;
      var sent := if state == RELAYING || state == END then received + added else 0;
      var record := LogRecord(text, mailPtr.account, received, sent, |mailPtr.base.message| + added);
      logs := logs + [record];
      state := END;
      mailPtr := null;
    }

    static method TotalSize(list: seq<string>) returns (result: nat)
      ensures result == |Concat(list)|
    {
      result := 0;
      var i := 0;
      while i < |list|
        invariant 0 <= i <= |list| && result == |Concat(list[..i])|
      {
        assert list[..i + 1] == list[..i] + [list[i]];
        ConcatSnoc(list[..i], list[i]);
        result := result + |list[i]|;
        i := i + 1;
      }
      assert list[..i] == list;
    }

    /** The destructor. */
    method Destroy()
      requires Alive()
      modifies this`state, this`mailPtr, this`logs, this`destroyed
      ensures Value() == AfterDestroy(logging, old(Value()))
    {
      if mailPtr != null {
        Log("canceled");
      }
      destroyed := destroyed + 1;
    }

    method OnError()
      requires Alive()
      modifies this`state, this`mailPtr, this`logs, this`destroyed
      ensures Value() == AfterError(logging, old(Value()))
    {
      if mailPtr != null {
        Log("client error");
      }
      Destroy();
    }

    method OnDisconnect()
      requires Alive()
      modifies this`state, this`mailPtr, this`logs, this`destroyed
      ensures Value() == AfterDestroy(logging, old(Value()))
    {
      Destroy();
    }

    /** NetstringServer::SendResponse: true, or false after having run `OnError`. */
    method SendResponse(response: string, sendOk: bool) returns (ok: bool)
      requires Alive()
      modifies this`state, this`mailPtr, this`logs, this`destroyed, this`responses
      ensures ok == sendOk
      ensures var c := old(Value()).(responses := old(responses) + [response]);
              Value() == if ok then c else AfterError(logging, c)
    {
      responses := responses + [response];
      if !sendOk {
        OnError();
      }
      return sendOk;
    }

    method Finish(response: string, sendOk: bool)
      requires Alive() && state != INIT && state != END && response != ""
      modifies this`state, this`mailPtr, this`logs, this`destroyed, this`responses
      ensures Value() == AfterFinish(logging, old(Value()), response, sendOk)
    {
      if mailPtr != null {
        Log(response[1..]);
      }
      var ok := SendResponse(response, sendOk);
      if ok {
        Destroy();
      }
    }

    method OnRequest(payload: string, sendOk: bool)
      requires ConnInv(logging, Value()) && destroyed == 0 && state == INIT && |payload| <= SIZE_MAX
      modifies this
      ensures Value() == AfterRequest(verify, ws, logging, old(Value()), payload, sendOk)
      ensures mailPtr != null ==> fresh(mailPtr) && fresh(mailPtr.base)
    {
      state := RECEIVED;
      var mail := new IncomingMail(payload);
      var result := mail.Parse(verify);
      match result
      case MALFORMED =>
        Finish("Dmalformed input", sendOk);
      case BAD_ADDRESS =>
        Finish("Dbad address", sendOk);
      case TOO_MANY_RECIPIENTS =>
        Finish("Dtoo many recipients", sendOk);
      case SUCCESS =>
        assert state == RECEIVED;
        mail.base.message := StripLeft(ws, mail.base.message);
        mailPtr := mail;
        state := LUA;
    }

    method AssembleHeaders(headers: seq<string>) returns (list: seq<string>)
      ensures list == AdditionalHeaders(headers, peerCred)
    {
      list := [];
      var i := 0;
      while i < |headers|
        invariant 0 <= i <= |headers| && list == headers[..i]
      {
        list := list + [headers[i]];
        i := i + 1;
      }
      if peerCred.Some? {
        list := list + [ReceivedLine(peerCred.value)];
      }
    }

    /** The relay for an action of this type, created with the outgoing bytes. */
    ghost predicate Performs(kind: ActionType)
      reads this, RelayObjects()
    {
      match relayOperation
      case NoOperation => false
      case RemoteOperation(relay) => kind == CONNECT && outgoing == Some(Concat(relay.request))
      case ExecOperation(relay) => kind == EXEC && outgoing == Some(Concat(relay.base.request))
      case RawOperation(relay) => kind == EXEC_RAW && outgoing == Some(relay.unsent)
    }

    ghost function RelayObjects(): set<object>
      reads this
    {
      match relayOperation
      case NoOperation => {}
      case RemoteOperation(relay) => {relay}
      case ExecOperation(relay) => {relay.base}
      case RawOperation(relay) => {relay}
    }

    method OnLuaFinished(kind: Option<ActionType>, timeout: Option<real>, sendOk: bool)
      requires ConnInv(logging, Value()) && destroyed == 0 && state == LUA
      requires kind != Some(UNDEFINED)
      modifies this
      ensures Value() == AfterLuaFinished(logging, old(Value()), peerCred, kind, timeout, sendOk)
      ensures if kind in {Some(CONNECT), Some(EXEC), Some(EXEC_RAW)} then Performs(kind.value) else relayOperation == old(relayOperation)
    {
      assert mailPtr != null;
      if kind.None? {
        OnLuaError(sendOk);
      } else {
        Do(kind.value, timeout, sendOk);
      }
    }

    method OnLuaError(sendOk: bool)
      requires ConnInv(logging, Value()) && destroyed == 0 && state == LUA
      modifies this
      ensures Value() == AfterLuaFinished(logging, old(Value()), peerCred, None, None, sendOk)
      ensures relayOperation == old(relayOperation)
    {
      assert mailPtr != null;
      Finish("Zscript failed", sendOk);
    }

    method Do(kind: ActionType, timeout: Option<real>, sendOk: bool)
      requires ConnInv(logging, Value()) && destroyed == 0 && state == LUA && kind != UNDEFINED
      modifies this
      ensures Value() == AfterLuaFinished(logging, old(Value()), peerCred, Some(kind), timeout, sendOk)
      ensures if kind in {CONNECT, EXEC, EXEC_RAW} then Performs(kind) else relayOperation == old(relayOperation)
    {
      match kind
      case DISCARD =>
        state := NOT_RELAYING;
        Finish("Kdiscarded", sendOk);
      case REJECT =>
        state := NOT_RELAYING;
        Finish("Drejected", sendOk);
      case CONNECT =>
        state := RELAYING;
        DoConnect(timeout);
      case EXEC =>
        state := RELAYING;
        DoExec(timeout);
      case EXEC_RAW =>
        state := RELAYING;
        DoRawExec(timeout);
    }

    method DoConnect(timeout: Option<real>)
      requires mailPtr != null
      modifies this`relayOperation, this`outgoing, this`relayTimer
      ensures relayTimer == (old(relayTimer) || StartsTimer(timeout))
      ensures Performs(CONNECT)
      ensures outgoing == Some(Outgoing(CONNECT, mailPtr.Value(), peerCred))
    {
      if timeout.Some? && timeout.value > 0.0 {
        relayTimer := true;
      }
      var headers := AssembleHeaders(mailPtr.headers);
      var relay := new BasicRelay(mailPtr.base.Fields(), headers);
      relayOperation := RemoteOperation(relay);
      outgoing := Some(Concat(relay.request));
      FragmentsAreWire(mailPtr.base.Fields(), headers);
    }

    method DoExec(timeout: Option<real>)
      requires mailPtr != null
      modifies this`relayOperation, this`outgoing, this`relayTimer
      ensures relayTimer == (old(relayTimer) || StartsTimer(timeout))
      ensures Performs(EXEC)
      ensures outgoing == Some(Outgoing(EXEC, mailPtr.Value(), peerCred))
    {
      if timeout.Some? && timeout.value > 0.0 {
        relayTimer := true;
      }
      var headers := AssembleHeaders(mailPtr.headers);
      var relay := new ExecRelay(mailPtr.base.Fields(), headers);
      relayOperation := ExecOperation(relay);
      outgoing := Some(Concat(relay.base.request));
      FragmentsAreWire(mailPtr.base.Fields(), headers);
    }

    method DoRawExec(timeout: Option<real>)
      requires mailPtr != null
      modifies this`relayOperation, this`outgoing, this`relayTimer
      ensures relayTimer == (old(relayTimer) || StartsTimer(timeout))
      ensures Performs(EXEC_RAW)
      ensures outgoing == Some(Outgoing(EXEC_RAW, mailPtr.Value(), peerCred))
    {
      if timeout.Some? && timeout.value > 0.0 {
        relayTimer := true;
      }
      var headers := AssembleHeaders(mailPtr.headers);
      var relay := new RawExecRelay(mailPtr.base.message, headers);
      relayOperation := RawOperation(relay);
      outgoing := Some(relay.unsent);
    }

    /** `OnRelayResponse` and `OnRelayError` differ only in what they print. */
    method OnRelayNotification(n: Notification, sendOk: bool)
      requires ConnInv(logging, Value()) && destroyed == 0 && state == RELAYING && n.text != ""
      modifies this
      ensures Value() == AfterFinish(logging, old(Value()), n.text, sendOk)
    {
      Finish(n.text, sendOk);
    }

    method OnRelayTimeout(sendOk: bool)
      requires ConnInv(logging, Value()) && destroyed == 0 && state == RELAYING
      modifies this
      ensures Value() == AfterFinish(logging, old(Value()), "Ztimeout", sendOk)
    {
      Finish("Ztimeout", sendOk);
    }
  }
}
