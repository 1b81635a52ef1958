/** src/RawExecRelay.cxx: a child process gets the message on its standard input; its exit
    status becomes the response code and its output the response text. Exit, output, hangup
    and I/O errors arrive in any order and any chunking. */
module RawExecRelayModel {
  import opened Base
  import opened BasicRelayModel
  import opened ExitStatus

  const BUFFER_SIZE := 256
  const DISCARD_SIZE := 1024

  // ------------------------------------------------------------ the relay as functions

  /** Which readiness bits a pipe event carries. */
  datatype Events = Events(read: bool, hangup: bool)

  datatype ReadResult = Data(bytes: string) | ReadError
  datatype WriteResult = MORE(n: nat) | FINISHED | WriteError

  /** `captured` is the response buffer without the byte reserved for the code; `unsent` is what
      the write buffer still holds. */
  datatype Raw = Raw(
    pidfd: bool,
    requestOpen: bool,
    responseOpen: bool,
    unsent: string,
    captured: string,
    status: int)

  /** How much one read asks for: the free buffer, or a discard buffer once it is full. */
  function ReadSize(captured: string): nat {
    if |captured| < BUFFER_SIZE - 1 then BUFFER_SIZE - 1 - |captured| else DISCARD_SIZE
  }

  /** The response: the status decides the code and, without output, the text. */
  function Outcome(captured: string, status: int): Notification {
    var fixed := StatusResponse(status);
    var text := if captured == "" then fixed else [fixed[0]] + captured;
    if IsSuccess(status) then Response(text) else Failure(text)
  }

  /** A write takes at most what there is. */
  predicate Writable(unsent: string, w: WriteResult) {
    w.MORE? ==> w.n <= |unsent|
  }

  function AfterWrite(r: Raw, w: WriteResult): (Raw, seq<Notification>)
    requires Writable(r.unsent, w)
  {
    match w
    case MORE(n) => (r.(unsent := r.unsent[n..]), [])
    case FINISHED => (r.(unsent := "", requestOpen := false), [])
    case WriteError => (r, [Failure("Zwrite error")])
  }

  function AfterStart(r: Raw, spawned: bool, w: WriteResult): (Raw, seq<Notification>)
    requires Writable(r.unsent, w)
  {
    if !spawned then (r, [Failure("Zinternal server error")])
    else AfterWrite(r.(pidfd := true, responseOpen := true, requestOpen := true), w)
  }

  /** The second component is false at the end of the pipe. */
  function AfterRead(r: Raw, read: ReadResult): (Raw, bool, seq<Notification>) {
    match read
    case ReadError => (r, true, [Failure("Zread error")])
    case Data(bytes) =>
      (if |r.captured| < BUFFER_SIZE - 1 then r.(captured := r.captured + bytes) else r, bytes != "", [])
  }

  function AfterResponseReady(r: Raw, events: Events, read: ReadResult): (Raw, seq<Notification>) {
    if events == Events(false, true) then CloseResponse(r, [])
    else
      var (r', more, sent) := AfterRead(r, read);
      if !more || events.hangup then CloseResponse(r', sent) else (r', sent)
  }

  function CloseResponse(r: Raw, sent: seq<Notification>): (Raw, seq<Notification>) {
    var r' := r.(responseOpen := false);
    (r', if r.pidfd then sent else sent + [Outcome(r.captured, r.status)])
  }

  function AfterExit(r: Raw, status: int): (Raw, seq<Notification>) {
    var r' := r.(pidfd := false, status := status);
    (r', if r.responseOpen then [] else [Outcome(r.captured, status)])
  }

  /** One callback notifies the handler twice in exactly one situation: a read fails on an event
      that also carries a hangup, after the child has exited. */
  lemma NotifiesTwiceIff(r: Raw, events: Events, read: ReadResult)
    ensures |AfterResponseReady(r, events, read).1| <= 2
    ensures |AfterResponseReady(r, events, read).1| == 2
       <==> read.ReadError? && events == Events(true, true) && !r.pidfd
  {
  }

  /** Every response is a QMQP response of at most 256 bytes; it is a K exactly on success. */
  lemma OutcomeWellFormed(captured: string, status: int)
    requires |captured| <= 255
    ensures IsValidQmqpResponse(Outcome(captured, status).text)
    ensures |Outcome(captured, status).text| <= 256
    ensures Outcome(captured, status).text[0] == 'K' <==> IsCleanWord(status)
    ensures Outcome(captured, status).Response? <==> IsCleanWord(status)
    ensures captured == "" ==> Outcome(captured, status).text == WordText(status)
    ensures captured != "" ==>
              && Outcome(captured, status).text[1..] == captured
              && Outcome(captured, status).text[0] == WordText(status)[0]
  {
    StatusResponseCode(status);
  }

  // ------------------------------------------------------------ the relay and its environment

  /** The relay, the child and the pipes between them. `output` is everything the child is going
      to write; it consists of what was `consumed` from the pipe, what is `pending` in it and
      what is still `unwritten`. */
  datatype World = World(
    raw: Raw,
    output: string,
    consumed: string,
    pending: string,
    unwritten: string,
    writerOpen: bool,
    request: string,
    sent: string,
    exit: Option<int>,
    notified: seq<Notification>)

  datatype Event =
    | ChildWrites(n: nat)
    | WriterCloses
    | ResponseReady(events: Events, read: ReadResult)
    | RequestReady(write: WriteResult)
    | ChildExits(status: int)

  /** What may happen next, until the handler was notified. A read returns a nonempty part of
      what is in the pipe, or nothing at its end; with a hangup it returns all that fits, and a
      hangup alone means that nothing is left. Failed reads carry no hangup. */
  predicate Enabled(w: World, e: Event) {
    && w.notified == []
    && match e
       case ChildWrites(n) => w.writerOpen && 1 <= n <= |w.unwritten|
       case WriterCloses => w.writerOpen && w.unwritten == ""
       case ResponseReady(events, read) =>
         && w.raw.responseOpen
         && (events.read || events.hangup)
         && (events.hangup ==> !w.writerOpen)
         && (if events == Events(false, true) then w.pending == ""
             else if read.ReadError? then !events.hangup
             else
               && |read.bytes| <= ReadSize(w.raw.captured)
               && read.bytes <= w.pending
               && (if events.hangup then read.bytes == Take(w.pending, ReadSize(w.raw.captured))
                   else read.bytes == "" ==> w.pending == "" && !w.writerOpen))
       case RequestReady(write) =>
         w.raw.requestOpen && (write.MORE? ==> 1 <= write.n < |w.raw.unsent|)
       case ChildExits(status) => w.raw.pidfd
  }

  function Step(w: World, e: Event): World
    requires Enabled(w, e)
  {
    match e
    case ChildWrites(n) => w.(pending := w.pending + w.unwritten[..n], unwritten := w.unwritten[n..])
    case WriterCloses => w.(writerOpen := false)
    case ResponseReady(events, read) =>
      var (r, sent) := AfterResponseReady(w.raw, events, read);
      var n := if events == Events(false, true) || read.ReadError? then 0 else |read.bytes|;
      w.(raw := r, notified := sent, consumed := w.consumed + w.pending[..n], pending := w.pending[n..])
    case RequestReady(write) =>
      var (r, sent) := AfterWrite(w.raw, write);
      Written(w, r).(notified := sent)
    case ChildExits(status) =>
      var (r, sent) := AfterExit(w.raw, status);
      w.(raw := r, exit := Some(status), notified := sent)
  }

  /** The bytes the write buffer lost went into the child's standard input. */
  function Written(w: World, r: Raw): World
    requires |r.unsent| <= |w.raw.unsent|
  {
    w.(raw := r, sent := w.sent + w.raw.unsent[..|w.raw.unsent| - |r.unsent|])
  }

  function NewRaw(request: string): Raw {
    Raw(false, false, false, request, "", 0)
  }

  /** The world right after `Start`; `w` is what the first write did. */
  function Started(request: string, output: string, spawned: bool, w: WriteResult): World
    requires Writable(request, w)
  {
    var blank := World(NewRaw(request), output, "", "", output, true, request, "", None, []);
    var (r, sent) := AfterStart(blank.raw, spawned, w);
    Written(blank, r).(notified := sent)
  }

  /** `ws` is the worlds of a run under the events `es`, from `w` to `w'`. */
  predicate IsRun(w: World, ws: seq<World>, es: seq<Event>, w': World) {
    && |ws| == |es| + 1
    && ws[0] == w && ws[|es|] == w'
    && forall k :: 0 <= k < |es| ==> Enabled(ws[k], es[k]) && ws[k + 1] == Step(ws[k], es[k])
  }

  // ------------------------------------------------------------ what every step keeps

  predicate Inv(w: World) {
    && |w.raw.captured| <= 255 && |w.notified| <= 1
    && (w.writerOpen || w.unwritten == "")
    && w.sent + w.raw.unsent == w.request
    && (w.notified == [] ==>
        && (w.raw.requestOpen || w.raw.unsent == "")
        && (w.raw.responseOpen || w.raw.pidfd)
        && (if w.raw.responseOpen
            then w.output == w.consumed + (w.pending + w.unwritten) && w.raw.captured == Take(w.consumed, 255)
            else w.raw.captured == Take(w.output, 255))
        && (if w.raw.pidfd then w.exit == None else w.exit == Some(w.raw.status)))
  }

  /** The response to a whole output and an exit status. */
  function Expected(output: string, status: int): Notification {
    Outcome(Take(output, 255), status)
  }

  /** How an event that notifies the handler does so. */
  predicate Explains(e: Event, w: World) {
    if e.ResponseReady? && e.events != Events(false, true) && e.read.ReadError? then w.notified == [Failure("Zread error")]
    else if e.RequestReady? && e.write.WriteError? then w.notified == [Failure("Zwrite error")]
    else w.exit.Some? && w.notified == [Expected(w.output, w.exit.value)]
  }

  predicate IsIoError(e: Event) {
    || (e.ResponseReady? && e.events != Events(false, true) && e.read.ReadError?)
    || (e.RequestReady? && e.write.WriteError?)
  }

  lemma {:induction false} StepReads(w: World, events: Events, bytes: string)
    requires Inv(w) && Enabled(w, ResponseReady(events, Data(bytes))) && events != Events(false, true)
    ensures var w' := Step(w, ResponseReady(events, Data(bytes)));
            Inv(w') && (w'.notified != [] ==> Explains(ResponseReady(events, Data(bytes)), w'))
  {
    var full := BUFFER_SIZE - 1;
    var n, rest := |bytes|, w.pending[|bytes|..];
    assert w.pending == bytes + rest;
    assert w.consumed + bytes + (rest + w.unwritten) == w.output;
    ReadCaptures(w.consumed, bytes, full);
    if bytes == "" {
      assert w.pending + w.unwritten == "";
      assert w.output == w.consumed;
    } else if events.hangup {
      assert w.pending + w.unwritten == w.pending;
      LastReadCaptures(w.consumed, w.pending, full);
    }
  }

  /** A read adds to the captured bytes, or the buffer is full. */
  lemma ReadCaptures(consumed: string, bytes: string, full: nat)
    requires |Take(consumed, full)| < full ==> |bytes| <= full - |Take(consumed, full)|
    ensures Take(consumed + bytes, full) == if |Take(consumed, full)| < full then Take(consumed, full) + bytes else Take(consumed, full)
  {
    TakeAppend(consumed, bytes, full);
  }

  /** The one read after a hangup captures all that the buffer can take of the output. */
  lemma LastReadCaptures(consumed: string, pending: string, full: nat)
    ensures var captured := Take(consumed, full);
            var whole := if |captured| < full then captured + Take(pending, full - |captured|) else captured;
            Take(consumed + pending, full) == whole
  {
    TakeAppend(consumed, pending, full);
  }

  lemma {:induction false} StepKeepsInv(w: World, e: Event)
    requires Inv(w) && Enabled(w, e)
    ensures Inv(Step(w, e))
    ensures Step(w, e).notified != [] ==> Explains(e, Step(w, e))
    ensures Step(w, e).output == w.output && Step(w, e).request == w.request
  {
    if e.ResponseReady? {
      if e.events == Events(false, true) || e.read.ReadError? {
        StepWithoutBytes(w, e.events, e.read);
      } else {
        StepReads(w, e.events, e.read.bytes);
      }
    } else {
      StepElsewhere(w, e);
    }
  }

  lemma {:induction false} StepElsewhere(w: World, e: Event)
    requires Inv(w) && Enabled(w, e) && !e.ResponseReady?
    ensures Inv(Step(w, e)) && (Step(w, e).notified != [] ==> Explains(e, Step(w, e)))
    ensures Step(w, e).output == w.output && Step(w, e).request == w.request
  {
    match e
    case ChildWrites(n) =>
      assert w.pending + w.unwritten[..n] + w.unwritten[n..] == w.pending + w.unwritten;
    case WriterCloses =>
    case RequestReady(write) =>
    case ChildExits(status) =>
  }

  lemma StepWithoutBytes(w: World, events: Events, read: ReadResult)
    requires Inv(w) && Enabled(w, ResponseReady(events, read)) && (events == Events(false, true) || read.ReadError?)
    ensures var w' := Step(w, ResponseReady(events, read));
            Inv(w') && (w'.notified != [] ==> Explains(ResponseReady(events, read), w'))
  {
    assert w.consumed + w.pending[..0] == w.consumed && w.pending[0..] == w.pending;
    if events == Events(false, true) {
      assert w.output == w.consumed;
    }
  }

  lemma StartEstablishesInv(request: string, output: string, spawned: bool, w: WriteResult)
    requires Writable(request, w)
    ensures Inv(Started(request, output, spawned, w))
    ensures Started(request, output, spawned, w).notified
         == if !spawned then [Failure("Zinternal server error")] else if w.WriteError? then [Failure("Zwrite error")] else []
  {
    assert Take("", 255) == "";
    assert "" + ("" + output) == output;
  }

  lemma {:induction false} RunKeepsInv(w: World, ws: seq<World>, es: seq<Event>, w': World, k: nat)
    requires Inv(w) && IsRun(w, ws, es, w') && k < |ws|
    ensures Inv(ws[k]) && ws[k].output == w.output && ws[k].request == w.request
  {
    if k > 0 {
      RunKeepsInv(w, ws, es, w', k - 1);
      assert Enabled(ws[k - 1], es[k - 1]);
      StepKeepsInv(ws[k - 1], es[k - 1]);
    }
  }

  /** The last event of a run that ends in a notification explains it. */
  lemma LastExplains(w: World, ws: seq<World>, es: seq<Event>, w': World)
    requires Inv(w) && IsRun(w, ws, es, w') && w.notified == [] && w'.notified != []
    ensures es != [] && Explains(es[|es| - 1], w')
  {
    var k := |es| - 1;
    RunKeepsInv(w, ws, es, w', k);
    assert Enabled(ws[k], es[k]);
    StepKeepsInv(ws[k], es[k]);
  }

  /** The response pipe is closed by exactly those events after which no output can follow: a hangup,
      whose one read took all that fits, or a read at the end; until then it stays open. */
  lemma PipeClosesIff(w: World, events: Events, bytes: string)
    requires Inv(w) && Enabled(w, ResponseReady(events, Data(bytes)))
    ensures var after := Step(w, ResponseReady(events, Data(bytes))).raw;
            !after.responseOpen <==> events.hangup || bytes == ""
    ensures var after := Step(w, ResponseReady(events, Data(bytes))).raw;
            !after.responseOpen ==> after.captured == (if |w.output| <= 255 then w.output else w.output[..255])
  {
    LastCapture(w, events, bytes);
  }

  lemma LastCapture(w: World, events: Events, bytes: string)
    requires Inv(w) && Enabled(w, ResponseReady(events, Data(bytes)))
    ensures var after := Step(w, ResponseReady(events, Data(bytes))).raw;
            !after.responseOpen ==> after.captured == Take(w.output, 255)
  {
    var alive := w.(raw := w.raw.(pidfd := true), exit := None);
    StepKeepsInv(alive, ResponseReady(events, Data(bytes)));
  }

  // ------------------------------------------------------------ main results

  /** The one answer: every run that ends in a notification gives exactly one, and unless its last
      event is a failed read or write, it is a function of the child's whole output and its
      exit status; chunking and interleaving do not matter. */
  lemma {:induction false} OneAnswer(request: string, output: string, first: WriteResult, ws: seq<World>, es: seq<Event>, w: World)
    requires Writable(request, first)
    requires !first.WriteError?
    requires IsRun(Started(request, output, true, first), ws, es, w) && w.notified != []
    ensures es != [] && |w.notified| == 1
    ensures if IsIoError(es[|es| - 1]) then w.notified[0] == Failure("Zread error") || w.notified[0] == Failure("Zwrite error")
            else w.exit.Some? && w.notified[0] == Expected(output, w.exit.value)
  {
    StartEstablishesInv(request, output, true, first);
    RunKeepsInv(Started(request, output, true, first), ws, es, w, |es|);
    LastExplains(Started(request, output, true, first), ws, es, w);
  }

  predicate NoIoError(es: seq<Event>) {
    forall e :: e in es ==> !IsIoError(e)
  }

  lemma AnswerWithoutIoError(request: string, output: string, first: WriteResult, ws: seq<World>, es: seq<Event>, w: World)
    requires Writable(request, first)
    requires !first.WriteError? && NoIoError(es)
    requires IsRun(Started(request, output, true, first), ws, es, w) && w.notified != []
    ensures w.exit.Some? && w.notified == [Expected(output, w.exit.value)]
  {
    OneAnswer(request, output, first, ws, es, w);
    assert es[|es| - 1] in es;
  }

  /** Order independence, said of two runs. */
  lemma {:induction false} OrderIndependent(
    request: string, request': string, output: string,
    first: WriteResult, first': WriteResult,
    ws: seq<World>, ws': seq<World>, es: seq<Event>, es': seq<Event>, w: World, w': World)
    requires Writable(request, first)
    requires Writable(request', first')
    requires !first.WriteError? && !first'.WriteError?
    requires IsRun(Started(request, output, true, first), ws, es, w) && w.notified != []
    requires IsRun(Started(request', output, true, first'), ws', es', w') && w'.notified != []
    requires NoIoError(es) && NoIoError(es')
    requires w.exit == w'.exit
    ensures w.notified == w'.notified
  {
    AnswerWithoutIoError(request, output, first, ws, es, w);
    AnswerWithoutIoError(request', output, first', ws', es', w');
  }

  /** Work left: bytes to write, read and send, and descriptors to close. */
  function Measure(w: World): nat {
    2 * |w.unwritten| + |w.pending| + |w.raw.unsent|
    + (if w.writerOpen then 1 else 0) + (if w.raw.requestOpen then 1 else 0)
    + (if w.raw.responseOpen then 1 else 0) + (if w.raw.pidfd then 1 else 0)
    + (if w.notified == [] then 1 else 0)
  }

  lemma StepProgresses(w: World, e: Event)
    requires Inv(w) && Enabled(w, e)
    ensures Measure(Step(w, e)) < Measure(w)
  {
    if e.ResponseReady? {
      ReadProgresses(w, e.events, e.read);
    }
  }

  lemma ReadProgresses(w: World, events: Events, read: ReadResult)
    requires Enabled(w, ResponseReady(events, read))
    ensures Measure(Step(w, ResponseReady(events, read))) < Measure(w)
  {
  }

  /** No run is longer than the work there was. */
  lemma {:induction false} RunsEnd(w: World, ws: seq<World>, es: seq<Event>, w': World, k: nat)
    requires Inv(w) && IsRun(w, ws, es, w') && k < |ws|
    ensures k + Measure(ws[k]) <= Measure(w)
  {
    if k > 0 {
      RunsEnd(w, ws, es, w', k - 1);
      RunKeepsInv(w, ws, es, w', k - 1);
      assert Enabled(ws[k - 1], es[k - 1]);
      StepProgresses(ws[k - 1], es[k - 1]);
    }
  }

  /** No stuck relay: as long as the handler was not notified, the relay still watches the pipe or
      the child, and something it watches, or the child's own progress, can happen. Together
      with `RunsEnd`: every run that is not cut short ends in exactly one notification. */
  lemma NeverStuck(w: World) returns (e: Event)
    requires Inv(w) && w.notified == []
    ensures w.raw.responseOpen || w.raw.pidfd
    ensures Enabled(w, e) && !IsIoError(e)
  {
    if !w.raw.responseOpen {
      e := ChildExits(0);
    } else if w.pending != "" {
      e := ResponseReady(Events(true, false), Data(w.pending[..1]));
    } else if !w.writerOpen {
      e := ResponseReady(Events(false, true), Data(""));
    } else if w.unwritten != "" {
      e := ChildWrites(1);
    } else {
      e := WriterCloses;
    }
  }

  /** Every run is at most as long as the work there was at the start, and a run that nothing can
      continue has ended in exactly one notification. */
  lemma {:induction false} EveryRunAnswers(request: string, output: string, first: WriteResult, ws: seq<World>, es: seq<Event>, w: World)
    requires Writable(request, first) && !first.WriteError?
    requires IsRun(Started(request, output, true, first), ws, es, w)
    ensures |es| <= 2 * |output| + |request| + 5
    ensures (forall e :: !Enabled(w, e)) ==> |w.notified| == 1
  {
    StartEstablishesInv(request, output, true, first);
    RunsEnd(Started(request, output, true, first), ws, es, w, |es|);
    RunKeepsInv(Started(request, output, true, first), ws, es, w, |es|);
    if w.notified == [] {
      var e := NeverStuck(w);
    }
  }

  /** The child's standard input gets headers and message from the front, and all of it before the
      pipe is closed. */
  lemma WhatTheChildGets(request: string, output: string, first: WriteResult, ws: seq<World>, es: seq<Event>, w: World)
    requires Writable(request, first) && !first.WriteError?
    requires IsRun(Started(request, output, true, first), ws, es, w)
    ensures w.sent <= request
    ensures w.notified == [] && !w.raw.requestOpen ==> w.sent == request
  {
    StartEstablishesInv(request, output, true, first);
    RunKeepsInv(Started(request, output, true, first), ws, es, w, |es|);
  }

  // ------------------------------------------------------------ which answers are possible

  lemma PrependStep(w: World, e: Event, ws: seq<World>, es: seq<Event>, w': World)
    requires Enabled(w, e) && IsRun(Step(w, e), ws, es, w')
    ensures IsRun(w, [w] + ws, [e] + es, w')
  {
    var vs, ds := [w] + ws, [e] + es;
    forall k | 0 <= k < |ds|
      ensures Enabled(vs[k], ds[k]) && vs[k + 1] == Step(vs[k], ds[k])
    {
      if k > 0 {
        assert vs[k] == ws[k - 1] && ds[k] == es[k - 1] && vs[k + 1] == ws[k];
      }
    }
  }

  /** From everywhere an answer can be reached without an I/O error, after a known exit with the
      same status. */
  lemma {:induction false} RunToAnswer(w: World) returns (ws: seq<World>, es: seq<Event>, w': World)
    requires Inv(w) && w.notified == []
    ensures IsRun(w, ws, es, w') && NoIoError(es) && w'.notified != []
    ensures w.exit.Some? ==> w'.exit == w.exit
    decreases Measure(w)
  {
    var e := NeverStuck(w);
    var next := Step(w, e);
    StepKeepsInv(w, e);
    StepProgresses(w, e);
    if next.notified != [] {
      ws, es, w' := [w, next], [e], next;
    } else {
      ws, es, w' := RunToAnswer(next);
      PrependStep(w, e, ws, es, w');
      ws, es := [w] + ws, [e] + es;
    }
  }

  /** Whatever the child writes and however it ends, there is a run with the expected answer. */
  lemma {:induction false} ExpectedIsReached(request: string, output: string, first: WriteResult, status: int)
    returns (ws: seq<World>, es: seq<Event>, w: World)
    requires Writable(request, first) && !first.WriteError?
    ensures IsRun(Started(request, output, true, first), ws, es, w) && NoIoError(es)
    ensures w.exit == Some(status) && w.notified == [Expected(output, status)]
  {
    var start := Started(request, output, true, first);
    StartEstablishesInv(request, output, true, first);
    StepKeepsInv(start, ChildExits(status));
    ws, es, w := RunToAnswer(Step(start, ChildExits(status)));
    PrependStep(start, ChildExits(status), ws, es, w);
    ws, es := [start] + ws, [ChildExits(status)] + es;
    AnswerWithoutIoError(request, output, first, ws, es, w);
  }

  /** While part of the request is unsent the answer is open: the same child, which exits with 0, is
      a success or, if a write fails first, a temporary failure. */
  lemma {:induction false} WriteErrorsRace(request: string, output: string, first: WriteResult)
    returns (ws: seq<World>, ws': seq<World>, es: seq<Event>, es': seq<Event>, w: World, w': World)
    requires Writable(request, first) && first.MORE?
    ensures IsRun(Started(request, output, true, first), ws, es, w) && NoIoError(es)
    ensures w.notified == [Expected(output, 0)] && w.notified[0].Response?
    ensures IsRun(Started(request, output, true, first), ws', es', w') && NoFailedRead(es')
    ensures w'.notified == [Failure("Zwrite error")] && w'.exit == None
  {
    ws, es, w := ExpectedIsReached(request, output, first, 0);
    OutcomeWellFormed(Take(output, 255), 0);
    var start, fail := Started(request, output, true, first), RequestReady(WriteError);
    w' := Step(start, fail);
    ws', es' := [start, w'], [fail];
  }

  predicate NoFailedRead(es: seq<Event>) {
    forall e :: e in es ==> !(e.ResponseReady? && IsIoError(e))
  }

  /** All runs without a failed read give the answer that output and exit status determine. */
  ghost predicate Determined(request: string, output: string, first: WriteResult)
    requires Writable(request, first)
  {
    forall ws, es, w :: IsRun(Started(request, output, true, first), ws, es, w) && NoFailedRead(es) && w.notified != [] ==>
      w.exit.Some? && w.notified == [Expected(output, w.exit.value)]
  }

  lemma {:induction false} ClosedStaysClosed(w: World, ws: seq<World>, es: seq<Event>, w': World, k: nat)
    requires IsRun(w, ws, es, w') && k < |ws| && !w.raw.requestOpen
    ensures !ws[k].raw.requestOpen
  {
    if k > 0 {
      ClosedStaysClosed(w, ws, es, w', k - 1);
      assert Enabled(ws[k - 1], es[k - 1]);
    }
  }

  lemma {:induction false} SentMeansExpected(request: string, output: string, ws: seq<World>, es: seq<Event>, w: World)
    requires IsRun(Started(request, output, true, FINISHED), ws, es, w) && NoFailedRead(es) && w.notified != []
    ensures w.exit.Some? && w.notified == [Expected(output, w.exit.value)]
  {
    var start, last := Started(request, output, true, FINISHED), |es| - 1;
    OneAnswer(request, output, FINISHED, ws, es, w);
    ClosedStaysClosed(start, ws, es, w, last);
    assert Enabled(ws[last], es[last]) && es[last] in es;
  }

  /** When write errors can matter, exactly: the answer is determined by output and exit status
      if and only if `Start` already got the whole request into the pipe. */
  lemma {:induction false} DeterminedIff(request: string, output: string, first: WriteResult)
    requires Writable(request, first) && !first.WriteError?
    ensures Determined(request, output, first) <==> first.FINISHED?
  {
    if first.FINISHED? {
      forall ws, es, w | IsRun(Started(request, output, true, first), ws, es, w) && NoFailedRead(es) && w.notified != []
        ensures w.exit.Some? && w.notified == [Expected(output, w.exit.value)]
      {
        SentMeansExpected(request, output, ws, es, w);
      }
    } else {
      var ws, ws', es, es', w, w' := WriteErrorsRace(request, output, first);
    }
  }

  // ------------------------------------------------------------ the class

  lemma Slices(s: string, i: nat, j: nat, k: nat)
    requires i <= j <= k <= |s|
    ensures s[i..k] == s[i..j] + s[j..k]
  {
  }

  class RawExecRelay {
    var pidfd: bool
    var requestOpen: bool
    var responseOpen: bool
    var unsent: string
    const responseBuffer: array<char>
    /** Starts with 1: the first byte is reserved for the code. */
    var responseFill: nat
    var status: int

    predicate Valid()
      reads this
    {
      responseBuffer.Length == BUFFER_SIZE && 1 <= responseFill <= BUFFER_SIZE
    }

    function Value(): Raw
      requires Valid()
      reads this, responseBuffer
    {
      Raw(pidfd, requestOpen, responseOpen, unsent, responseBuffer[1..responseFill], status)
    }

    constructor (message: string, additionalHeaders: seq<string>)
      ensures Valid() && fresh(responseBuffer)
      ensures Value() == NewRaw(Concat(additionalHeaders) + message)
    {
      pidfd, requestOpen, responseOpen, responseFill, status := false, false, false, 1, 0;
      responseBuffer := new char[BUFFER_SIZE];
      unsent := "";
      new;
      var i := 0;
      while i < |additionalHeaders|
        invariant 0 <= i <= |additionalHeaders|
        invariant unsent == Concat(additionalHeaders[..i])
        invariant Valid() && !pidfd && !requestOpen && !responseOpen && responseFill == 1 && status == 0
      {
        assert additionalHeaders[..i + 1] == additionalHeaders[..i] + [additionalHeaders[i]];
        ConcatSnoc(additionalHeaders[..i], additionalHeaders[i]);
        unsent := unsent + additionalHeaders[i];
        i := i + 1;
      }
      assert additionalHeaders[..i] == additionalHeaders;
      unsent := unsent + message;
    }

    /** `spawned` tells whether pipes and child could be created. */
    method Start(spawned: bool, write: WriteResult) returns (sent: seq<Notification>)
      requires Valid() && Writable(unsent, write)
      modifies this
      ensures Valid() && (Value(), sent) == AfterStart(old(Value()), spawned, write)
    {
      if !spawned {
        return [Failure("Zinternal server error")];
      }
      pidfd := true;
      responseOpen := true;
      requestOpen := true;
      sent := TryWrite(write);
    }

    method TryWrite(write: WriteResult) returns (sent: seq<Notification>)
      requires Valid() && Writable(unsent, write)
      modifies this`unsent, this`requestOpen
      ensures Valid() && (Value(), sent) == AfterWrite(old(Value()), write)
    {
      match write
      case MORE(n) =>
        unsent := unsent[n..];
        return [];
      case FINISHED =>
        unsent := "";
        requestOpen := false;
        return [];
      case WriteError =>
        return [Failure("Zwrite error")];
    }

    /** `read` is what the read on the pipe returns for the requested size. */
    method TryRead(read: ReadResult) returns (more: bool, sent: seq<Notification>)
      requires Valid() && (read.Data? ==> |read.bytes| <= ReadSize(Value().captured))
      modifies this`responseFill, responseBuffer
      ensures Valid() && (Value(), more, sent) == AfterRead(old(Value()), read)
    {
      if read.ReadError? {
        return true, [Failure("Zread error")];
      }
      if responseFill == responseBuffer.Length {
        return read.bytes != "", [];
      }
      ghost var before := responseBuffer[1..responseFill];
      var n := 0;
      while n < |read.bytes|
        invariant 0 <= n <= |read.bytes|
        invariant responseFill == old(responseFill) && responseFill + |read.bytes| <= responseBuffer.Length
        invariant responseBuffer[1..responseFill] == before
        invariant responseBuffer[responseFill..responseFill + n] == read.bytes[..n]
      {
        responseBuffer[responseFill + n] := read.bytes[n];
        n := n + 1;
      }
      assert read.bytes[..n] == read.bytes;
      Slices(responseBuffer[..], 1, responseFill, responseFill + n);
      responseFill := responseFill + n;
      assert responseBuffer[1..responseFill] == before + read.bytes;
      return n > 0, [];
    }

    method OnRequestPipeReady(write: WriteResult) returns (sent: seq<Notification>)
      requires Valid() && Writable(unsent, write)
      modifies this`unsent, this`requestOpen
      ensures Valid() && (Value(), sent) == AfterWrite(old(Value()), write)
    {
      sent := TryWrite(write);
    }

    method OnResponsePipeReady(events: Events, read: ReadResult) returns (sent: seq<Notification>)
      requires Valid() && (read.Data? ==> |read.bytes| <= ReadSize(Value().captured))
      modifies this, responseBuffer
      ensures Valid() && (Value(), sent) == AfterResponseReady(old(Value()), events, read)
    {
      sent := [];
      var more := true;
      if events != Events(false, true) {
        more, sent := TryRead(read);
      }
      if events == Events(false, true) || !more || events.hangup {
        responseOpen := false;
        if !pidfd {
          var last := Finish();
          sent := sent + [last];
        }
      }
    }

    method OnChildProcessExit(newStatus: int) returns (sent: seq<Notification>)
      requires Valid()
      modifies this, responseBuffer
      ensures Valid() && (Value(), sent) == AfterExit(old(Value()), newStatus)
    {
      pidfd := false;
      status := newStatus;
      sent := [];
      if !responseOpen {
        var last := Finish();
        sent := [last];
      }
    }

    method Finish() returns (n: Notification)
      requires Valid() && !responseOpen && !pidfd
      modifies responseBuffer
      ensures Valid() && Value() == old(Value())
      ensures n == Outcome(Value().captured, status)
    {
      var response := "K";
      if status < 0 || IsSignaled(status) {
        response := "Zinternal server error";
      } else if ExitCode(status) != 0 {
        response := ExitStatusToQmqpResponse(ExitCode(status));
      }
      assert response == StatusResponse(status);
      if responseFill > 1 {
        ghost var captured := responseBuffer[1..responseFill];
        responseBuffer[0] := response[0];
        assert responseBuffer[1..responseFill] == captured;
        assert responseBuffer[..responseFill] == [response[0]] + captured;
        response := responseBuffer[..responseFill];
      }
      if status < 0 || IsSignaled(status) || ExitCode(status) != 0 {
        return Failure(response);
      }
      return Response(response);
    }
  }
}
