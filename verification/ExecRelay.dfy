/** src/ExecRelay.cxx: a relay that speaks QMQP to a child process and holds the reply back until
    the child's exit status is known. The netstring client calls back exactly once, with a
    reply or a failure. */
module ExecRelayModel {
  import opened Base
  import opened BasicRelayModel
  import opened ExitStatus
  import QmqpMailModel

  // ------------------------------------------------------------ the relay as functions

  datatype Exec = Exec(pidfd: bool, deferredResponse: Option<string>)

  function AfterStart(x: Exec, spawned: bool): (Exec, seq<Notification>) {
    if spawned then (x.(pidfd := true), []) else (x, [Failure("Zinternal server error")])
  }

  function AfterExit(x: Exec, status: int): (Exec, seq<Notification>) {
    var x' := x.(pidfd := false);
    if status < 0 then (x', [Failure("Zinternal server error")])
    else if IsSignaled(status) then (x', [Failure("Zinternal server error")])
    else if ExitCode(status) != 0 then (x', [Failure(ExitStatusToQmqpResponse(ExitCode(status)))])
    else if x.deferredResponse.Some? then (x'.(deferredResponse := None), [ReplyOutcome(x.deferredResponse.value)])
    else (x', [])
  }

  function AfterReply(x: Exec, payload: string): (Exec, seq<Notification>) {
    if x.pidfd then (x.(deferredResponse := Some(payload)), []) else (x, [ReplyOutcome(payload)])
  }

  // ------------------------------------------------------------ the relay and its environment

  datatype ClientResult = Replied(payload: string) | Failed

  /** `client` is what the netstring client called back with, `exit` how the child ended. */
  datatype World = World(exec: Exec, client: Option<ClientResult>, exit: Option<int>, notified: seq<Notification>)

  datatype Event = ChildExits(status: int) | ClientDone(result: ClientResult)

  predicate Enabled(w: World, e: Event) {
    && w.notified == []
    && match e
       case ChildExits(_) => w.exec.pidfd
       case ClientDone(_) => w.client.None?
  }

  function Step(w: World, e: Event): World {
    match e
    case ChildExits(status) =>
      var (x, sent) := AfterExit(w.exec, status);
      World(x, w.client, Some(status), sent)
    case ClientDone(Replied(payload)) =>
      var (x, sent) := AfterReply(w.exec, payload);
      World(x, Some(Replied(payload)), w.exit, sent)
    case ClientDone(Failed) =>
      World(w.exec, Some(Failed), w.exit, [RELAY_FAILED])
  }

  function Started(spawned: bool): World {
    var (x, sent) := AfterStart(Exec(false, None), spawned);
    World(x, None, None, sent)
  }

  /** `ws` is the worlds of a run under the events `es`, from `w` to `w'`. */
  predicate IsRun(w: World, ws: seq<World>, es: seq<Event>, w': World) {
    && |ws| == |es| + 1
    && ws[0] == w && ws[|es|] == w'
    && forall k :: 0 <= k < |es| ==> Enabled(ws[k], es[k]) && ws[k + 1] == Step(ws[k], es[k])
  }

  // ------------------------------------------------------------ what every step keeps

  /** The outcome for a reply and an exit status. */
  function ExecOutcome(payload: string, status: int): Notification {
    if !IsCleanWord(status) then Failure(WordText(status))
    else if payload != "" && payload[0] in {'K', 'D', 'Z'} then Response(payload)
    else Failure("Zmalformed relay response")
  }

  /** What a notification says about the client's result and the exit status. */
  predicate Explained(w: World) {
    && |w.notified| == 1
    && if w.client == Some(Failed) then w.notified[0] == Failure("Zrelay failed") && (w.exit.Some? ==> IsCleanWord(w.exit.value))
       else
         && w.exit.Some?
         && (IsCleanWord(w.exit.value) ==> w.client.Some?)
         && w.notified[0] == ExecOutcome(if w.client.Some? then w.client.value.payload else "", w.exit.value)
  }

  predicate Inv(w: World) {
    if w.notified == [] then
      && w.exec.pidfd == w.exit.None?
      && (w.exit.Some? ==> IsCleanWord(w.exit.value) && w.client.None?)
      && (w.client.Some? ==> w.client.value.Replied?)
      && w.exec.deferredResponse == (if w.client.Some? then Some(w.client.value.payload) else None)
    else Explained(w)
  }

  lemma StepKeepsInv(w: World, e: Event)
    requires Inv(w) && Enabled(w, e)
    ensures Inv(Step(w, e))
  {
  }

  /** How much can still happen. */
  function Awaited(w: World): nat {
    (if w.exec.pidfd then 1 else 0) + (if w.client.None? then 1 else 0)
  }

  lemma {:induction false} RunKeepsInv(w: World, ws: seq<World>, es: seq<Event>, w': World, k: nat)
    requires Inv(w) && IsRun(w, ws, es, w') && k < |ws|
    ensures Inv(ws[k]) && k + Awaited(ws[k]) <= Awaited(w)
  {
    if k > 0 {
      RunKeepsInv(w, ws, es, w', k - 1);
      assert Enabled(ws[k - 1], es[k - 1]);
      StepKeepsInv(ws[k - 1], es[k - 1]);
    }
  }

  // ------------------------------------------------------------ main results

  /** Every run of a started relay notifies at most once, and what it says is explained by the
      client's result and the exit status alone; while it has not, the child or the client is
      still awaited. */
  lemma OneAnswer(ws: seq<World>, es: seq<Event>, w: World)
    requires IsRun(Started(true), ws, es, w)
    ensures if w.notified == [] then w.exec.pidfd || w.client.None? else Explained(w)
    ensures |es| <= 2
  {
    RunKeepsInv(Started(true), ws, es, w, |es|);
  }

  /** A relay that still awaits something can be notified of it: with `OneAnswer`, every run that
      is not cut short notifies exactly once, after at most two events. */
  lemma NeverStuck(ws: seq<World>, es: seq<Event>, w: World) returns (e: Event)
    requires IsRun(Started(true), ws, es, w) && w.notified == []
    ensures Enabled(w, e)
  {
    RunKeepsInv(Started(true), ws, es, w, |es|);
    e := if w.exec.pidfd then ChildExits(0) else ClientDone(Failed);
  }

  /** A reply is never forwarded before the child's success is known. */
  lemma NothingForwardedEarly(ws: seq<World>, es: seq<Event>, w: World)
    requires IsRun(Started(true), ws, es, w) && w.notified != [] && w.notified[0].Response?
    ensures w.exit.Some? && IsCleanWord(w.exit.value)
    ensures w.client.Some? && w.client.value.Replied? && w.client.value.payload == w.notified[0].text
  {
    RunKeepsInv(Started(true), ws, es, w, |es|);
  }

  /** The run in which the child ends first; a failure ends the run at once. */
  function ExitFirst(result: ClientResult, status: int): World {
    var w := Step(Started(true), ChildExits(status));
    if w.notified == [] then Step(w, ClientDone(result)) else w
  }

  /** The run in which the client calls back first. */
  function ClientFirst(result: ClientResult, status: int): World {
    var w := Step(Started(true), ClientDone(result));
    if w.notified == [] then Step(w, ChildExits(status)) else w
  }

  /** Order independence, and its limit: both orders give the same answer exactly when the client
      got a reply or the child succeeded. With a failed client and a failed child the first to
      be noticed decides the text, but it is an error either way. */
  lemma OrderIndependentIff(result: ClientResult, status: int)
    ensures ExitFirst(result, status).notified == ClientFirst(result, status).notified
       <==> result.Replied? || IsCleanWord(status)
    ensures result.Replied? ==> ClientFirst(result, status).notified == [ExecOutcome(result.payload, status)]
    ensures result.Failed? ==> ExitFirst(result, status).notified[0].Failure? && ClientFirst(result, status).notified[0].Failure?
  {
    assert "Zrelay failed"[1] == 'r' && "Zinternal server error"[1] == 'i' && "Dinternal server error"[1] == 'i';
  }

  /** All runs in which both happen are these two. */
  lemma RunsAreOrders(ws: seq<World>, es: seq<Event>, w: World)
    requires IsRun(Started(true), ws, es, w) && w.notified != []
    ensures |es| > 0
    ensures es[0].ClientDone? ==> w.notified == ClientFirst(es[0].result, if |es| > 1 && es[1].ChildExits? then es[1].status else 0).notified
    ensures es[0].ChildExits? ==> w.notified == ExitFirst(if |es| > 1 && es[1].ClientDone? then es[1].result else Failed, es[0].status).notified
  {
    OneAnswer(ws, es, w);
    assert Enabled(ws[0], es[0]) && ws[1] == Step(ws[0], es[0]);
    if |es| > 1 {
      assert Enabled(ws[1], es[1]) && ws[2] == Step(ws[1], es[1]);
    }
  }

  class ExecRelay {
    /** The BasicRelay base object. */
    const base: BasicRelay
    var pidfd: bool
    var deferredResponse: Option<string>

    constructor (mail: QmqpMailModel.Envelope, additionalHeaders: seq<string>)
      ensures fresh(base) && Value() == Exec(false, None)
      ensures base.request == RequestFragments(mail, additionalHeaders)
    {
      base := new BasicRelay(mail, additionalHeaders);
      pidfd, deferredResponse := false, None;
    }

    function Value(): Exec
      reads this
    {
      Exec(pidfd, deferredResponse)
    }

    method Start(spawned: bool) returns (sent: seq<Notification>)
      modifies this
      ensures (Value(), sent) == AfterStart(old(Value()), spawned)
    {
      if !spawned {
        return [Failure("Zinternal server error")];
      }
      pidfd := true;
      return [];
    }

    method OnChildProcessExit(status: int) returns (sent: seq<Notification>)
      modifies this
      ensures (Value(), sent) == AfterExit(old(Value()), status)
    {
      pidfd := false;
      if status < 0 {
        return [Failure("Zinternal server error")];
      } else if IsSignaled(status) {
        return [Failure("Zinternal server error")];
      } else if ExitCode(status) != 0 {
        return [Failure(ExitStatusToQmqpResponse(ExitCode(status)))];
      } else if deferredResponse.Some? {
        var n := base.OnNetstringResponse(deferredResponse.value);
        deferredResponse := None;
        return [n];
      }
      return [];
    }

    method OnNetstringResponse(payload: string) returns (sent: seq<Notification>)
      modifies this
      ensures (Value(), sent) == AfterReply(old(Value()), payload)
    {
      if pidfd {
        deferredResponse := Some(payload);
        return [];
      }
      var n := base.OnNetstringResponse(payload);
      return [n];
    }
  }
}
