/** src/RemoteRelay.cxx: connect, then exchange one request and one reply. */
module RemoteRelayModel {
  import opened Base
  import opened BasicRelayModel

  datatype World = World(connected: bool, reply: Option<string>, notified: seq<Notification>)

  datatype Event = Connected | ConnectFails | Replies(payload: string) | ReplyFails

  const START := World(false, None, [])

  predicate Enabled(w: World, e: Event) {
    w.notified == [] && (e.Replies? || e.ReplyFails?) == w.connected
  }

  function Step(w: World, e: Event): World {
    match e
    case Connected => w.(connected := true)
    case ConnectFails => w.(notified := [Failure("Zconnect failed")])
    case Replies(payload) => w.(reply := Some(payload), notified := [ReplyOutcome(payload)])
    case ReplyFails => w.(notified := [RELAY_FAILED])
  }
}
